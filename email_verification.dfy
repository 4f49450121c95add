/**
 * The six-slot verification code entry
 * (client/src/pages/authPages/EmailVerificationPage.jsx): typing and pasting
 * into the slots, moving focus, and submitting the joined code. Focus moves
 * are returned as the index of the input that receives focus.
 */
module EmailVerification {
  import opened Wrappers

  /** The number of slots. */
  const CodeLength: nat := 6

  /** Slot `i` after pasting `value`: the i-th character of its first six, or empty. */
  function PastedSlot(value: string, i: nat): string
  {
    if i < |value| && i < CodeLength then [value[i]] else ""
  }

  /** The whole code after pasting `value`. */
  function PastedCode(value: string): (code: seq<string>)
    ensures |code| == CodeLength
    ensures forall i :: 0 <= i < CodeLength ==> code[i] == PastedSlot(value, i)
  {
    seq(CodeLength, i requires 0 <= i < CodeLength => PastedSlot(value, i))
  }

  /** `code.findLastIndex(digit => digit !== '')`: the last filled slot, or -1. */
  function LastFilledIndex(code: seq<string>): (r: int)
    ensures -1 <= r < |code|
    ensures r >= 0 ==> code[r] != ""
    ensures forall j :: r < j < |code| ==> code[j] == ""
  {
    if code == [] then -1
    else if code[|code| - 1] != "" then |code| - 1
    else LastFilledIndex(code[..|code| - 1])
  }

  /** Where focus goes after a paste: the slot after the last filled one, at most the last slot. */
  function FocusAfterPaste(code: seq<string>): nat
  {
    var last := LastFilledIndex(code);
    if last < 5 then last + 1 else 5
  }

  /** After a paste of `value`, focus lands on the first empty slot, or on the last
      slot when all six are filled. */
  lemma {:induction false} PasteFocus(value: string)
    ensures FocusAfterPaste(PastedCode(value)) == if |value| < CodeLength then |value| else 5
  {
    var code := PastedCode(value);
    var n := if |value| < CodeLength then |value| else CodeLength;
    assert forall j :: n <= j < CodeLength ==> code[j] == "";
    if n > 0 {
      assert code[n - 1] != "";
    }
  }

  /** Where focus goes after typing `value` into slot `index`: the next slot when
      something was typed and there is a next slot. */
  function FocusAfterInput(index: nat, value: string): (r: Option<nat>)
    ensures r.Some? <==> value != "" && index < 5
    ensures r.Some? ==> r.value == index + 1 && r.value < CodeLength
  {
    if value != "" && index < 5 then Some(index + 1) else None
  }

  /** `handleKeyDown`: Backspace on an empty slot other than the first moves focus back. */
  function FocusAfterKeyDown(code: seq<string>, index: nat, key: string): (r: Option<nat>)
    requires index < |code|
    ensures r.Some? <==> key == "Backspace" && code[index] == "" && index > 0
    ensures r.Some? ==> r.value == index - 1
  {
    if key == "Backspace" && code[index] == "" && index > 0 then Some(index - 1) else None
  }

  /** `code.every(digit => digit !== '')` */
  predicate AllFilled(code: seq<string>)
  {
    forall i :: 0 <= i < |code| ==> code[i] != ""
  }

  /** `code.join('')` */
  function Join(code: seq<string>): string
  {
    if code == [] then "" else code[0] + Join(code[1..])
  }

  /** The submit button: `disabled={isLoading || code.some(digit => !digit)}`. */
  predicate SubmitDisabled(isLoading: bool, code: seq<string>)
  {
    isLoading || exists i :: 0 <= i < |code| && code[i] == ""
  }

  lemma SubmitEnabledIffReady(isLoading: bool, code: seq<string>)
    ensures !SubmitDisabled(isLoading, code) <==> !isLoading && AllFilled(code)
  {
  }

  /** Every slot holds at most one character (what the slots keep between edits). */
  predicate SlotsAreSingle(code: seq<string>)
  {
    forall i :: 0 <= i < |code| ==> |code[i]| <= 1
  }

  /** Joining filled single-character slots gives one character per slot, in order. */
  lemma {:induction false} JoinOfSingleSlots(code: seq<string>)
    requires SlotsAreSingle(code) && AllFilled(code)
    ensures |Join(code)| == |code|
    ensures forall i :: 0 <= i < |code| ==> Join(code)[i] == code[i][0]
  {
    if code != [] {
      JoinOfSingleSlots(code[1..]);
      assert |code[0]| == 1;
    }
  }

  /** Pasting six or more characters fills every slot, and the code then submitted
      is exactly the first six characters pasted. */
  lemma PasteSixThenJoin(value: string)
    requires |value| >= CodeLength
    ensures AllFilled(PastedCode(value))
    ensures Join(PastedCode(value)) == value[..CodeLength]
  {
    var code := PastedCode(value);
    assert SlotsAreSingle(code);
    JoinOfSingleSlots(code);
  }

  /** `[...code]` with the six slots overwritten from the pasted text, as the
      handler's `for` loop does. */
  method DistributePaste(code: seq<string>, value: string) returns (newCode: seq<string>)
    requires |code| == CodeLength
    ensures newCode == PastedCode(value)
  {
    var slots := new string[CodeLength];
    // `[...code]`: the copy the handler starts from, every slot of which the paste then overwrites
    for k := 0 to CodeLength
      invariant forall j :: 0 <= j < k ==> slots[j] == code[j]
    {
      slots[k] := code[k];
    }
    var pasted := if |value| <= CodeLength then value else value[..CodeLength];
    for i := 0 to CodeLength
      invariant forall j :: 0 <= j < i ==> slots[j] == PastedSlot(value, j)
    {
      slots[i] := if i < |pasted| then [pasted[i]] else "";
    }
    newCode := slots[..];
  }

  /** The code entry state: the six slots, and whether verification is in progress. */
  class CodeEntry {
    var code: seq<string>

    ghost predicate Valid()
      reads this
    {
      |code| == CodeLength && SlotsAreSingle(code)
    }

    constructor ()
      ensures Valid() && code == ["", "", "", "", "", ""]
    {
      code := ["", "", "", "", "", ""];
    }

    /** `handleChange` followed by the auto-submit effect: a value longer than one
        character is a paste, anything else is written to slot `index` alone. The
        code is submitted as soon as every slot is filled. */
    method HandleChange(index: nat, value: string) returns (focus: Option<nat>, submitted: Option<string>)
      requires Valid() && index < CodeLength
      modifies this
      ensures Valid()
      ensures |value| > 1 ==> code == PastedCode(value) && focus == Some(FocusAfterPaste(code))
      ensures |value| <= 1 ==> code == old(code)[index := value] && focus == FocusAfterInput(index, value)
      ensures submitted.Some? <==> AllFilled(code)
      ensures submitted.Some? ==> submitted.value == Join(code) && |submitted.value| == CodeLength
    {
      if |value| > 1 {
        var newCode := DistributePaste(code, value);
        code := newCode;
        focus := Some(FocusAfterPaste(newCode));
      } else {
        code := code[index := value];
        focus := FocusAfterInput(index, value);
      }
      submitted := None;
      if AllFilled(code) {
        JoinOfSingleSlots(code);
        submitted := Some(Join(code));
      }
    }
  }
}
