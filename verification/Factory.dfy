/** `parse_decimal` as it runs over the bytes of a name. */
module Factory {
  import opened Basics
  import opened Text
  import opened TypeNames

  lemma IndexFound(s: bytes, b: byte, i: nat, k: nat)
    requires i <= k <= |s| && (forall j | i <= j < k :: s[j] != b) && (k < |s| ==> s[k] == b)
    ensures IndexFrom(s, b, i) == k
  {
  }

  lemma LastFound(s: bytes, b: byte, n: nat, k: nat)
    requires k <= n <= |s| && (forall j | k <= j < n :: s[j] != b) && (k > 0 ==> s[k - 1] == b)
    ensures LastBelow(s, b, n) == k
  {
  }

  /** The heads hold no parenthesis. */
  lemma HeadPlain(head: bytes, j: nat)
    requires DecimalHead(head).Some? && j < |head|
    ensures head[j] != 0x28 && head[j] != 0x29
  {
    if head == Ascii("Decimal") {
      assert head[j] == "Decimal"[j] as int;
    } else if head == Ascii("Decimal32") {
      assert head[j] == "Decimal32"[j] as int;
    } else {
      assert head[j] == "Decimal64"[j] as int;
    }
  }

  /** The scan for the parentheses: where the parameters stand and what the head says of the width. */
  method ScanDecimal(s: bytes) returns (r: Option<(bytes, Option<NoBits>)>)
    ensures r == DecimalParams(s)
  {
    hide IndexFrom, LastBelow, DecimalHead;
    var nobits: Option<NoBits> := None;
    var open: Option<nat>, close: Option<nat> := None, None;
    for i := 0 to |s|
      invariant open.None? ==> nobits.None? && forall j | 0 <= j < i :: s[j] != 0x28
      invariant open.Some? ==>
                  && open.value < i && s[open.value] == 0x28
                  && (forall j | 0 <= j < i && j != open.value :: s[j] != 0x28)
                  && DecimalHead(s[..open.value]) == Some(nobits)
      invariant close.None? ==> forall j | 0 <= j < i :: s[j] != 0x29
      invariant close.Some? ==>
                  close.value < i && s[close.value] == 0x29 && forall j | close.value < j < i :: s[j] != 0x29
    {
      if s[i] == 0x28 {
        var head := DecimalHead(s[..i]);
        if head.None? {
          if open.Some? {
            IndexFound(s, 0x28, 0, open.value);
            IndexFound(s, 0x28, open.value + 1, i);
          } else {
            IndexFound(s, 0x28, 0, i);
          }
          return None;
        }
        if open.Some? { HeadPlain(s[..i], open.value); }
        if head.value.Some? {
          nobits := head.value;
        }
        open := Some(i);
      }
      if s[i] == 0x29 {
        close := Some(i);
      }
    }
    if open.None? {
      IndexFound(s, 0x28, 0, |s|);
      return None;
    }
    IndexFound(s, 0x28, 0, open.value);
    IndexFound(s, 0x28, open.value + 1, |s|);
    if close.None? {
      LastFound(s, 0x29, |s|, 0);
      return None;
    }
    LastFound(s, 0x29, |s|, close.value + 1);
    if close.value < open.value { HeadPlain(s[..open.value], close.value); }
    return Some((s[open.value + 1..close.value], nobits));
  }

  /** The comma-separated cells of a plain decimal: precision and scale, None for what does not parse. More than two
      cells are refused. */
  method SplitParams(params: bytes) returns (precision: Option<nat>, scale: Option<nat>, refused: bool)
    ensures var comma := IndexFrom(params, 0x2C, 0);
            && (comma < |params| ==> (refused <==> IndexFrom(params, 0x2C, comma + 1) < |params|))
            && (comma == |params| ==> !refused && scale.None?)
            && (comma < |params| && !refused ==>
                  && precision == ParseUnsigned(Trim(params[..comma]), 255)
                  && scale == ParseUnsigned(Trim(params[comma + 1..]), 255))
  {
    hide IndexFrom, Trim, ParseUnsigned;
    precision, scale := None, None;
    ghost var comma := IndexFrom(params, 0x2C, 0);
    var idx, start := 0, 0;
    while true
      invariant start <= |params| && idx <= 2
      invariant idx == 0 ==> start == 0 && scale.None?
      invariant idx >= 1 ==> comma < |params| && precision == ParseUnsigned(Trim(params[..comma]), 255)
      invariant idx == 1 ==> start == comma + 1 && scale.None?
      invariant idx == 2 ==> IndexFrom(params, 0x2C, comma + 1) < |params|
      decreases |params| - start
    {
      var end := IndexFrom(params, 0x2C, start);
      var cell := params[start..end];
      if idx == 0 {
        precision := ParseUnsigned(Trim(cell), 255);
      } else if idx == 1 {
        scale := ParseUnsigned(Trim(cell), 255);
      } else {
        return precision, scale, true;
      }
      if end == |params| {
        assert idx == 1 ==> params[start..] == cell;
        return precision, scale, false;
      }
      start := end + 1;
      idx := idx + 1;
    }
  }

  /** `parse_decimal`. */
  method DecimalOfName(s: bytes) returns (r: Option<DecimalShape>)
    ensures r == ParseDecimal(s)
  {
    hide DecimalParams, IndexFrom, Trim, ParseUnsigned, StartsWith;
    if |s| < 12 || !StartsWith(s, Ascii("Decimal")) {
      return None;
    }
    var found := ScanDecimal(s);
    if found.None? {
      return None;
    }
    var params, nobits := found.value.0, found.value.1;
    if nobits.Some? {
      var scale := ParseUnsigned(params, 255);
      SmallNumber(params);
      if scale.None? {
        return None;
      }
      return Some(DecimalShape(if nobits.value == N32 then 9 else 18, scale.value, nobits.value));
    }
    var precision, scale, refused := SplitParams(params);
    if refused || precision.None? || scale.None? {
      return None;
    }
    var comma := IndexFrom(params, 0x2C, 0);
    SmallNumber(Trim(params[..comma]));
    SmallNumber(Trim(params[comma + 1..]));
    if scale.value > precision.value {
      return None;
    }
    var bits := FromPrecision(precision.value);
    if bits.None? {
      return None;
    }
    return Some(DecimalShape(precision.value, scale.value, bits.value));
  }

  lemma SmallNumber(s: bytes)
    ensures ParseUnsigned(s, 255).Some? ==> ParseUnsigned(s, 255).value <= 255
  {
    hide DigitsValue;
  }
}
