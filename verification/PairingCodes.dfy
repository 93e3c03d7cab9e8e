/** Comparing pairing codes (crates/server/src/api/agents.rs). A code is its UTF-8 bytes; every byte
    of a character outside ASCII is 0x80 or more, so dropping such bytes drops such characters. */
module PairingCodes {

  type Code = seq<bv8>

  predicate IsAsciiAlphanumeric(b: bv8) { 0x61 <= b <= 0x7a || 0x41 <= b <= 0x5a || 0x30 <= b <= 0x39 }

  function ToAsciiUpper(b: bv8): bv8 { if 0x61 <= b <= 0x7a then b - 0x20 else b }

  /** Upper case, separators dropped. */
  function NormalizeCode(code: Code): Code {
    if code == [] then []
    else if IsAsciiAlphanumeric(code[0]) then [ToAsciiUpper(code[0])] + NormalizeCode(code[1..])
    else NormalizeCode(code[1..])
  }

  lemma UpperIsStable(b: bv8)
    ensures ToAsciiUpper(ToAsciiUpper(b)) == ToAsciiUpper(b)
    ensures IsAsciiAlphanumeric(ToAsciiUpper(b)) == IsAsciiAlphanumeric(b)
  {}

  lemma {:induction false} NormalizeAppends(a: Code, b: Code)
    ensures NormalizeCode(a + b) == NormalizeCode(a) + NormalizeCode(b)
  {
    if a == [] {
      assert a + b == b;
    } else {
      NormalizeAppends(a[1..], b);
      assert (a + b)[1..] == a[1..] + b && (a + b)[0] == a[0];
    }
  }

  lemma NormalizeOne(b: bv8)
    ensures NormalizeCode([b]) == if IsAsciiAlphanumeric(b) then [ToAsciiUpper(b)] else []
  {}

  /** Case and separators do not matter: a separator anywhere, and lower for upper case, leave the
      code the same. */
  lemma SeparatorsAndCaseDoNotMatter(a: Code, x: bv8, b: Code)
    ensures !IsAsciiAlphanumeric(x) ==> NormalizeCode(a + [x] + b) == NormalizeCode(a + b)
    ensures NormalizeCode(a + [x] + b) == NormalizeCode(a + [ToAsciiUpper(x)] + b)
  {
    NormalizeAppends(a + [x], b);
    NormalizeAppends(a, [x]);
    NormalizeAppends(a, b);
    NormalizeAppends(a + [ToAsciiUpper(x)], b);
    NormalizeAppends(a, [ToAsciiUpper(x)]);
    NormalizeOne(x);
    NormalizeOne(ToAsciiUpper(x));
    UpperIsStable(x);
  }

  lemma {:induction false} NormalizeIsStable(code: Code)
    ensures NormalizeCode(NormalizeCode(code)) == NormalizeCode(code)
  {
    if code != [] {
      NormalizeIsStable(code[1..]);
      NormalizeOne(code[0]);
      if IsAsciiAlphanumeric(code[0]) {
        UpperIsStable(code[0]);
        NormalizeOne(ToAsciiUpper(code[0]));
        NormalizeAppends([ToAsciiUpper(code[0])], NormalizeCode(code[1..]));
      }
    }
  }

  /** What each byte of a code stands for: a digit or capital letter for itself, a small letter for its
      capital, and anything else for nothing. */
  lemma BytesStandFor(a: Code, x: bv8, b: Code)
    ensures NormalizeCode(a + [x] + b)
         == NormalizeCode(a)
            + (if (0x30 <= x && x <= 0x39) || (0x41 <= x && x <= 0x5a) then [x]
               else if 0x61 <= x && x <= 0x7a then [x - 0x20] else [])
            + NormalizeCode(b)
  {
    NormalizeAppends(a + [x], b);
    NormalizeAppends(a, [x]);
    NormalizeOne(x);
  }

  /** A code of digits and capital letters stands for itself. */
  lemma {:induction false} PlainCodesStay(code: Code)
    requires forall i :: 0 <= i < |code| ==> (0x30 <= code[i] && code[i] <= 0x39) || (0x41 <= code[i] && code[i] <= 0x5a)
    ensures NormalizeCode(code) == code
  {
    if code != [] {
      assert code == [] + [code[0]] + code[1..];
      BytesStandFor([], code[0], code[1..]);
      PlainCodesStay(code[1..]);
    }
  }

  /** Wrong codes do not match: two codes of digits and capital letters do exactly if they are equal. */
  lemma PlainCodesMatchExactly(a: Code, b: Code)
    requires forall i :: 0 <= i < |a| ==> (0x30 <= a[i] && a[i] <= 0x39) || (0x41 <= a[i] && a[i] <= 0x5a)
    requires forall i :: 0 <= i < |b| ==> (0x30 <= b[i] && b[i] <= 0x39) || (0x41 <= b[i] && b[i] <= 0x5a)
    ensures NormalizeCode(a) == NormalizeCode(b) <==> a == b
  {
    PlainCodesStay(a);
    PlainCodesStay(b);
  }

  lemma DifferenceAccumulates(acc: bv8, x: bv8, y: bv8)
    ensures acc | (x ^ y) == 0 <==> acc == 0 && x == y
  {}

  lemma OneMoreByte(a: Code, b: Code, i: nat)
    requires i < |a| == |b|
    ensures a[..i + 1] == b[..i + 1] <==> a[..i] == b[..i] && a[i] == b[i]
  {}

  /** Constant-time comparison: every byte is looked at, and the difference accumulates. */
  method CodesMatch(entered: Code, expected: Code) returns (same: bool)
    ensures same <==> NormalizeCode(entered) == NormalizeCode(expected)
  {
    var a, b := NormalizeCode(entered), NormalizeCode(expected);
    if |a| != |b| { return false; }
    var acc: bv8 := 0;
    for i := 0 to |a|
      invariant acc == 0 <==> a[..i] == b[..i]
    {
      DifferenceAccumulates(acc, a[i], b[i]);
      OneMoreByte(a, b, i);
      acc := acc | (a[i] ^ b[i]);
    }
    assert a[..|a|] == a && b[..|a|] == b;
    return acc == 0;
  }
}
