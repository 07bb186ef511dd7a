/** Redaction of wallet addresses in log text. */
module Redaction {

  const MASK: string := "0x[REDACTED]"

  predicate IsHex(c: char) {
    '0' <= c <= '9' || 'a' <= c <= 'f' || 'A' <= c <= 'F'
  }

  /** End of the run of hex digits that starts at `i`. */
  function HexEnd(s: string, i: nat): (end: nat)
    requires i <= |s|
    ensures i <= end <= |s| && (forall k :: i <= k < end ==> IsHex(s[k])) && (end < |s| ==> !IsHex(s[end]))
    decreases |s| - i
  {
    if i < |s| && IsHex(s[i]) then HexEnd(s, i + 1) else i
  }

  /** The prefix 0x with at least forty hex digits after it. */
  predicate AddressAt(s: string, i: nat) {
    i + 2 <= |s| && s[i] == '0' && (s[i + 1] == 'x' || s[i + 1] == 'X') && HexEnd(s, i + 2) - i >= 42
  }

  ghost predicate NoAddress(s: string) {
    forall i: nat :: !AddressAt(s, i)
  }

  /** The text from `i` on with every address masked. */
  function Redacted(s: string, i: nat): string
    requires i <= |s|
    decreases |s| - i
  {
    if i + 2 > |s| then s[i..]
    else if AddressAt(s, i) then MASK + Redacted(s, HexEnd(s, i + 2))
    else [s[i]] + Redacted(s, i + 1)
  }

  // ---- what redaction guarantees -------------------------------------------------------------

  lemma {:induction false} HexEndShift(c: char, s: string, i: nat)
    requires i <= |s|
    ensures HexEnd([c] + s, i + 1) == HexEnd(s, i) + 1
    decreases |s| - i
  {
    if i < |s| && IsHex(s[i]) {
      HexEndShift(c, s, i + 1);
    }
  }

  /** Redaction lengthens no run of hex digits. */
  lemma {:induction false} RunNotLonger(s: string, i: nat)
    requires i <= |s|
    ensures HexEnd(Redacted(s, i), 0) <= HexEnd(s, i) - i
    decreases |s| - i
  {
    var r := Redacted(s, i);
    if i + 2 > |s| {
      TailRun(s, i);
    } else if AddressAt(s, i) {
      assert r[0] == '0' && r[1] == 'x';
    } else if IsHex(s[i]) {
      RunNotLonger(s, i + 1);
      HexEndShift(s[i], Redacted(s, i + 1), 0);
    } else {
      assert r[0] == s[i];
    }
  }

  lemma {:induction false} TailRun(s: string, i: nat)
    requires i <= |s|
    ensures HexEnd(s[i..], 0) <= HexEnd(s, i) - i
    decreases |s| - i
  {
    if i < |s| && IsHex(s[i]) {
      TailRun(s, i + 1);
      assert s[i..] == [s[i]] + s[i + 1..];
      HexEndShift(s[i], s[i + 1..], 0);
    }
  }

  /** One character in front makes an address only if it starts one. */
  lemma ConsNoAddress(c: char, s: string)
    requires NoAddress(s) && !AddressAt([c] + s, 0)
    ensures NoAddress([c] + s)
  {
    forall i: nat
      ensures !AddressAt([c] + s, i)
    {
      if i > 0 && i + 2 <= |[c] + s| {
        HexEndShift(c, s, i + 1);
        assert !AddressAt(s, i - 1);
      }
    }
  }

  lemma MaskNoAddress(s: string)
    requires NoAddress(s)
    ensures NoAddress(MASK + s)
  {
    var t := MASK + s;
    forall i: nat
      ensures !AddressAt(t, i)
    {
      if i == 0 {
        assert t[2] == '[';
        assert HexEnd(t, 2) == 2;
      } else if i < |MASK| {
        assert t[i] == MASK[i] != '0';
      } else if i + 2 <= |t| {
        MaskShift(s, i + 2);
        assert !AddressAt(s, i - |MASK|);
      }
    }
  }

  lemma {:induction false} MaskShift(s: string, i: nat)
    requires |MASK| <= i <= |MASK + s|
    ensures HexEnd(MASK + s, i) == HexEnd(s, i - |MASK|) + |MASK|
    decreases |MASK + s| - i
  {
    if i < |MASK + s| && IsHex((MASK + s)[i]) {
      MaskShift(s, i + 1);
    }
  }

  /** No wallet address survives redaction. */
  lemma {:induction false} RedactedHasNoAddress(s: string, i: nat)
    requires i <= |s|
    ensures NoAddress(Redacted(s, i))
    decreases |s| - i
  {
    if i + 2 > |s| {
    } else if AddressAt(s, i) {
      RedactedHasNoAddress(s, HexEnd(s, i + 2));
      MaskNoAddress(Redacted(s, HexEnd(s, i + 2)));
    } else {
      RedactedHasNoAddress(s, i + 1);
      NoNewAddress(s, i);
      ConsNoAddress(s[i], Redacted(s, i + 1));
    }
  }

  /** Masking later addresses does not turn the text before them into an address. */
  lemma NoNewAddress(s: string, i: nat)
    requires i + 2 <= |s| && !AddressAt(s, i)
    ensures !AddressAt([s[i]] + Redacted(s, i + 1), 0)
  {
    var rest := Redacted(s, i + 1);
    if s[i] == '0' && |rest| > 0 && (rest[0] == 'x' || rest[0] == 'X') {
      var after := Redacted(s, i + 2);
      if i + 3 <= |s| {
        assert rest == [s[i + 1]] + after;
      } else {
        assert rest == s[i + 1..] && after == s[i + 2..];
        assert rest == [s[i + 1]] + after;
      }
      RunNotLonger(s, i + 2);
      HexEndShift(s[i + 1], after, 0);
      HexEndShift(s[i], rest, 1);
    }
  }

  /** Text without an address is left alone, so redacting twice is redacting once. */
  lemma {:induction false} CleanTextUnchanged(s: string, i: nat)
    requires i <= |s| && NoAddress(s)
    ensures Redacted(s, i) == s[i..]
    decreases |s| - i
  {
    if i + 2 <= |s| {
      assert !AddressAt(s, i);
      CleanTextUnchanged(s, i + 1);
    }
  }

  lemma RedactionIdempotent(s: string)
    ensures Redacted(Redacted(s, 0), 0) == Redacted(s, 0)
  {
    RedactedHasNoAddress(s, 0);
    CleanTextUnchanged(Redacted(s, 0), 0);
  }

  // ---- the scan ---------------------------------------------------------------------------------

  /** The output so far, the text not yet copied, and the rest. */
  ghost predicate Copied(s: string, output: string, start: nat, idx: nat) {
    start <= idx <= |s| && Redacted(s, 0) == output + s[start..idx] + Redacted(s, idx)
  }

  lemma CopyOne(s: string, output: string, start: nat, idx: nat)
    requires idx + 2 <= |s| && !AddressAt(s, idx) && Copied(s, output, start, idx)
    ensures Copied(s, output, start, idx + 1)
  {
    assert s[start..idx] + [s[idx]] == s[start..idx + 1];
  }

  lemma MaskOne(s: string, output: string, start: nat, idx: nat)
    requires AddressAt(s, idx) && Copied(s, output, start, idx)
    ensures var end := HexEnd(s, idx + 2);
            Copied(s, output + s[start..idx] + MASK, end, end)
  {
  }

  method ScanHex(value: string, from: nat) returns (end: nat)
    requires from <= |value|
    ensures end == HexEnd(value, from)
  {
    end := from;
    while end < |value| && IsHex(value[end])
      invariant from <= end <= |value| && HexEnd(value, from) == HexEnd(value, end)
    {
      end := end + 1;
    }
  }

  lemma Finished(s: string, output: string, start: nat, idx: nat)
    requires Copied(s, output, start, idx) && idx + 2 > |s|
    ensures Redacted(s, 0) == output + s[start..]
  {
    assert Redacted(s, idx) == s[idx..];
    JoinSlices(s, output, start, idx);
  }

  lemma JoinSlices(s: string, output: string, start: nat, idx: nat)
    requires start <= idx <= |s|
    ensures output + s[start..idx] + s[idx..] == output + s[start..]
  {
  }

  lemma RedactedIsClean(s: string)
    ensures NoAddress(Redacted(s, 0)) && (NoAddress(s) ==> Redacted(s, 0) == s)
  {
    RedactedHasNoAddress(s, 0);
    if NoAddress(s) {
      CleanTextUnchanged(s, 0);
    }
  }

  /** One pass that copies the text between addresses. */
  method RedactWalletAddresses(value: string) returns (output: string)
    ensures output == Redacted(value, 0)
    ensures NoAddress(output)
    ensures NoAddress(value) ==> output == value
  {
    output := "";
    var start, idx := 0, 0;
    while idx + 2 <= |value|
      invariant 0 <= start <= idx <= |value|
      invariant start == 0 ==> output == ""
      invariant Copied(value, output, start, idx)
      decreases |value| - idx
    {
      var end := idx;
      if value[idx] == '0' && (value[idx + 1] == 'x' || value[idx + 1] == 'X') {
        end := ScanHex(value, idx + 2);
      }
      if end - idx >= 42 {
        MaskOne(value, output, start, idx);
        output := output + value[start..idx] + MASK;
        idx := end;
        start := end;
      } else {
        CopyOne(value, output, start, idx);
        idx := idx + 1;
      }
    }
    Finished(value, output, start, idx);
    RedactedIsClean(value);
    if start == 0 {
      output := value;
    } else {
      output := output + value[start..];
    }
  }
}
