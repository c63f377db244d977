/**
 * The reset-code entry form of the front end (front-end/src/pages/VerifyOTP.jsx):
 * six one-character input boxes held in a `code` array, the form field "otp"
 * that is always the boxes joined, and the box that has the focus.
 *
 * Typing a character calls HandleChange for that box; pasting calls
 * HandlePaste. Every box stays empty or holds one decimal digit, and the form
 * accepts its value exactly when all six boxes are filled.
 */
module VerifyOtpPage {
  import opened Digits

  const Slots: nat := 6
  const LastSlot: nat := 5

  /** A box's content: empty or one digit. */
  predicate IsSlot(s: string) {
    s == "" || (|s| == 1 && IsDigit(s[0]))
  }

  /** The form's schema: the field must match `^\d{6}$`. */
  predicate SchemaAccepts(otp: string) {
    IsSixDigits(otp)
  }

  /** `code.join("")`. */
  function Join(slots: seq<string>): string {
    if slots == [] then "" else slots[0] + Join(slots[1..])
  }

  /** The number of non-empty boxes. */
  function Filled(slots: seq<string>): (n: nat)
    ensures n <= |slots|
  {
    if slots == [] then 0 else (if slots[0] != "" then 1 else 0) + Filled(slots[1..])
  }

  /** Joining boxes that are empty or one digit gives one digit per filled box. */
  lemma {:induction false} JoinOfSlots(slots: seq<string>)
    requires forall i :: 0 <= i < |slots| ==> IsSlot(slots[i])
    ensures AllDigits(Join(slots)) && |Join(slots)| == Filled(slots)
    ensures Filled(slots) == |slots| <==> forall i :: 0 <= i < |slots| ==> slots[i] != ""
  {
    if slots != [] {
      var tail := slots[1..];
      assert forall i :: 0 <= i < |tail| ==> tail[i] == slots[i + 1];
      JoinOfSlots(tail);
      if forall i :: 0 <= i < |tail| ==> tail[i] != "" {
        if slots[0] != "" {
          forall i | 0 <= i < |slots| ensures slots[i] != "" {
            if i > 0 { assert slots[i] == tail[i - 1]; }
          }
        }
      } else {
        var i :| 0 <= i < |tail| && tail[i] == "";
        assert slots[i + 1] == "";
      }
    }
  }

  /** The form value passes the schema exactly when all six boxes are filled. */
  lemma SchemaAcceptsIffAllFilled(slots: seq<string>)
    requires |slots| == Slots && forall i :: 0 <= i < Slots ==> IsSlot(slots[i])
    ensures SchemaAccepts(Join(slots)) <==> forall i :: 0 <= i < Slots ==> slots[i] != ""
  {
    JoinOfSlots(slots);
  }

  /** Boxes holding the characters of a digit string one by one join back to that string. */
  lemma {:induction false} JoinOfSingles(slots: seq<string>, d: string)
    requires |slots| == |d| && forall i :: 0 <= i < |d| ==> slots[i] == [d[i]]
    ensures Join(slots) == d
  {
    if d != [] {
      JoinOfSingles(slots[1..], d[1..]);
      assert d == [d[0]] + d[1..];
    }
  }

  lemma {:induction false} JoinOfEmpty(slots: seq<string>)
    requires forall i :: 0 <= i < |slots| ==> slots[i] == ""
    ensures Join(slots) == ""
  {
    if slots != [] {
      JoinOfEmpty(slots[1..]);
    }
  }

  /** The two guards of handleChange (lines 58 and 61): too long, or a non-empty non-digit, is ignored. */
  predicate Accepted(value: string) {
    !(|value| > 1) && !(value != "" && !(|value| == 1 && IsDigit(value[0])))
  }

  /** What handleChange lets through is exactly what a box may hold. */
  lemma AcceptedIsSlot(value: string)
    ensures Accepted(value) <==> IsSlot(value)
  {
  }

  /** `replace(/\D/g, "")`: the digits of the text, in order. */
  function DigitsOf(text: string): (r: string)
    ensures AllDigits(r) && |r| <= |text|
    ensures AllDigits(text) ==> r == text
  {
    if text == [] then []
    else (if IsDigit(text[0]) then [text[0]] else []) + DigitsOf(text[1..])
  }

  /** Sanitising keeps every digit of the text, as often as it occurs, and drops everything else. */
  lemma {:induction false} DigitsOfKeepsDigits(text: string)
    ensures forall c :: IsDigit(c) ==> multiset(DigitsOf(text))[c] == multiset(text)[c]
    ensures forall c :: !IsDigit(c) ==> multiset(DigitsOf(text))[c] == 0
  {
    if text != [] {
      DigitsOfKeepsDigits(text[1..]);
      assert text == [text[0]] + text[1..];
    }
  }

  /** Sanitising works piece by piece, so the digits keep the order they have in the text. */
  lemma {:induction false} DigitsOfAppend(a: string, b: string)
    ensures DigitsOf(a + b) == DigitsOf(a) + DigitsOf(b)
  {
    if a != [] {
      assert (a + b)[0] == a[0];
      assert (a + b)[1..] == a[1..] + b;
      DigitsOfAppend(a[1..], b);
    } else {
      assert a + b == b;
    }
  }

  /** `.replace(/\D/g, "").slice(0, 6)`: at most six digits, the first ones of the text. */
  function PastedDigits(text: string): (r: string)
    ensures AllDigits(r) && |r| <= Slots
    ensures |r| == if |DigitsOf(text)| < Slots then |DigitsOf(text)| else Slots
    ensures r <= DigitsOf(text)
  {
    var digits := DigitsOf(text);
    if |digits| <= Slots then digits else digits[..Slots]
  }

  /** `Math.min(pastedData.length, 5)`: the box after the last pasted one, or the last box. */
  function FocusAfterPaste(n: nat): (f: nat)
    ensures f < Slots
    ensures n < Slots ==> f == n
    ensures n >= LastSlot ==> f == LastSlot
  {
    if n < LastSlot then n else LastSlot
  }

  /** The boxes after the pasted digits were written over the first ones. */
  lemma PasteOutcome(before: seq<string>, after: seq<string>, pasted: string)
    requires |before| == Slots && |after| == Slots && |pasted| <= Slots && AllDigits(pasted)
    requires forall i :: 0 <= i < Slots ==> IsSlot(before[i])
    requires forall i :: 0 <= i < |pasted| ==> after[i] == [pasted[i]]
    requires forall i :: |pasted| <= i < Slots ==> after[i] == before[i]
    ensures forall i :: 0 <= i < Slots ==> IsSlot(after[i])
    ensures SchemaAccepts(Join(after)) <==> forall i :: 0 <= i < Slots ==> after[i] != ""
    ensures |pasted| == Slots ==> Join(after) == pasted
  {
    forall i | 0 <= i < Slots ensures IsSlot(after[i]) {
      if i < |pasted| {
        assert IsDigit(pasted[i]);
      }
    }
    SchemaAcceptsIffAllFilled(after);
    if |pasted| == Slots {
      JoinOfSingles(after, pasted);
    }
  }

  /** A code the backend mails (six digits, userController.js:240) is pasted in whole. */
  lemma PastingIssuedCode(draw: nat)
    requires 100000 <= draw <= 999999
    ensures PastedDigits(Decimal(draw)) == Decimal(draw)
    ensures SchemaAccepts(Decimal(draw))
  {
    SixDigitCode(draw);
  }

  class OtpForm {
    /** The six boxes (`useState(["", "", "", "", "", ""])`). */
    var code: array<string>
    /** The form field "otp", set with `setValue` after each change. */
    var otpValue: string
    /** The box that has the keyboard focus. */
    var focus: nat

    ghost predicate Valid()
      reads this, code
    {
      && code.Length == Slots
      && (forall i :: 0 <= i < Slots ==> IsSlot(code[i]))
      && otpValue == Join(code[..])
      && focus < Slots
    }

    /** `formState.isValid`: whether the submit button is enabled. */
    function FormValid(): bool
      reads this
    {
      SchemaAccepts(otpValue)
    }

    constructor ()
      ensures Valid() && fresh(code)
      ensures code[..] == ["", "", "", "", "", ""] && !FormValid()
    {
      code := new string[Slots](_ => "");
      otpValue := "";
      focus := 0;
      new;
      assert code[..] == ["", "", "", "", "", ""];
      JoinOfEmpty(code[..]);
    }

    /** handleChange: front-end/src/pages/VerifyOTP.jsx:56-75, for the box at `index`. */
    method HandleChange(index: nat, value: string)
      requires Valid() && index < Slots
      modifies this, code
      ensures Valid() && code == old(code)
      ensures Accepted(value) ==> code[..] == old(code[..])[index := value]
      ensures !Accepted(value) ==> code[..] == old(code[..]) && otpValue == old(otpValue)
      ensures focus == if Accepted(value) && value != "" && index < LastSlot then index + 1 else old(focus)
      ensures FormValid() <==> forall i :: 0 <= i < Slots ==> code[i] != ""
    {
      if |value| > 1 {
        SchemaAcceptsIffAllFilled(code[..]);
        return;
      }
      if value != "" && !(|value| == 1 && IsDigit(value[0])) {
        SchemaAcceptsIffAllFilled(code[..]);
        return;
      }
      code[index] := value;
      otpValue := Join(code[..]);
      if value != "" && index < LastSlot {
        focus := index + 1;
      }
      SchemaAcceptsIffAllFilled(code[..]);
    }

    /** handleKeyDown: front-end/src/pages/VerifyOTP.jsx:77-82; Backspace in an empty box moves back one box. */
    method HandleKeyDown(index: nat, isBackspace: bool)
      requires Valid() && index < Slots
      modifies this
      ensures Valid() && code[..] == old(code[..]) && otpValue == old(otpValue)
      ensures focus == if isBackspace && code[index] == "" && index > 0 then index - 1 else old(focus)
    {
      if isBackspace && code[index] == "" && index > 0 {
        focus := index - 1;
      }
    }

    /** handlePaste: front-end/src/pages/VerifyOTP.jsx:84-105, for the clipboard text `text`. */
    method HandlePaste(text: string)
      requires Valid()
      modifies this, code
      ensures Valid() && code == old(code)
      ensures var pasted := PastedDigits(text);
        && (forall i :: 0 <= i < |pasted| ==> code[i] == [pasted[i]])
        && (forall i :: |pasted| <= i < Slots ==> code[i] == old(code[i]))
      ensures focus == FocusAfterPaste(|PastedDigits(text)|)
      ensures |PastedDigits(text)| == Slots ==> otpValue == PastedDigits(text) && FormValid()
      ensures FormValid() <==> forall i :: 0 <= i < Slots ==> code[i] != ""
    {
      var pasted := PastedDigits(text);
      ghost var before := code[..];
      var i := 0;
      while i < |pasted|
        invariant code == old(code) && code.Length == Slots
        invariant 0 <= i <= |pasted| <= Slots
        invariant forall j :: 0 <= j < i ==> code[j] == [pasted[j]]
        invariant forall j :: i <= j < Slots ==> code[j] == before[j]
      {
        code[i] := [pasted[i]];
        i := i + 1;
      }
      PasteOutcome(before, code[..], pasted);
      otpValue := Join(code[..]);
      focus := FocusAfterPaste(|pasted|);
    }
  }
}
