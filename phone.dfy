/** The phone detector of src/processors/extract.ts (`extractPhones`): from
    every digit, '+' or '(' a greedy look-ahead of at most 20 characters over
    digits and separators; a run with 10 to 15 digits is a phone, pushed
    unless a phone with the same value is already in the entity list. */
module PhoneDetector {
  import opened Strings
  import opened Results

  /** Length of the look-ahead window. */
  const Lookahead: nat := 20
  const MinDigits: nat := 10
  const MaxDigits: nat := 15

  /** A character a phone may start with: a digit, '+' or '('. */
  predicate IsPhoneStart(c: char) {
    IsDigit(c) || c == '+' || c == '('
  }

  /** The separators `- . space ( ) +`. */
  predicate IsPhoneSeparator(c: char) {
    c == '-' || c == '.' || c == ' ' || c == '(' || c == ')' || c == '+'
  }

  predicate IsPhoneChar(c: char) {
    IsDigit(c) || IsPhoneSeparator(c)
  }

  /** `Math.min(text.length, i + 20)`. */
  function LookaheadLimit(text: string, i: nat): nat {
    if |text| < i + Lookahead then |text| else i + Lookahead
  }

  /** Where the greedy scan from `k` stops: the first index in `[k, limit)`
      holding a character that is neither a digit nor a separator, else `limit`. */
  function PhoneEnd(text: string, k: nat, limit: nat): (e: nat)
    requires k <= limit <= |text|
    ensures k <= e <= limit
    ensures forall j :: k <= j < e ==> IsPhoneChar(text[j])
    ensures e == limit || !IsPhoneChar(text[e])
    decreases limit - k
  {
    if k == limit || !IsPhoneChar(text[k]) then k else PhoneEnd(text, k + 1, limit)
  }

  /** The number of digits in `s`. */
  function DigitCount(s: string): (n: nat)
    ensures n <= |s|
  {
    if s == [] then 0
    else DigitCount(s[..|s| - 1]) + (if IsDigit(s[|s| - 1]) then 1 else 0)
  }

  /** A string of digits only counts all of its characters. */
  lemma {:induction false} AllDigitsCount(s: string)
    requires forall j :: 0 <= j < |s| ==> IsDigit(s[j])
    ensures DigitCount(s) == |s|
  {
    if s != [] {
      AllDigitsCount(s[..|s| - 1]);
    }
  }

  /** The acceptance test of lines 175-179, with the always-true third
      conjunct left out (see `ValidCharsTestVacuous`). */
  predicate Accepted(digitCount: nat) {
    MinDigits <= digitCount <= MaxDigits
  }

  /** A phone entity with value `v` is in `ents`: `find`/`some` on the list. */
  predicate HasPhone(ents: seq<Entity>, v: string) {
    exists k :: 0 <= k < |ents| && ents[k].value == v && ents[k].kind == Phone
  }

  /** What the scan pushes from position `i` on, given the entity list `ents`
      as it then stands. An accepted candidate moves the scan to its end,
      whether it was pushed or was a duplicate; a rejected one moves it by one. */
  function PhoneScan(text: string, i: nat, ents: seq<Entity>): seq<Entity>
    decreases |text| - i
  {
    if i >= |text| then []
    else if !IsPhoneStart(text[i]) then PhoneScan(text, i + 1, ents)
    else
      var e := PhoneEnd(text, i, LookaheadLimit(text, i));
      if !Accepted(DigitCount(text[i..e])) then PhoneScan(text, i + 1, ents)
      else
        assert IsDigit(text[i]) || e > i;
        var p := Entity(Phone, text[i..e], i, e);
        if HasPhone(ents, p.value) then PhoneScan(text, e, ents)
        else [p] + PhoneScan(text, e, ents + [p])
  }

  /** What one `extractPhones` call pushes onto the list `ents`. */
  function PhonesFound(text: string, ents: seq<Entity>): seq<Entity> {
    PhoneScan(text, 0, ents)
  }

  /** The scan passes over position `i` when no candidate is accepted there. */
  lemma ScanSkips(text: string, i: nat, ents: seq<Entity>)
    requires i < |text|
    requires !IsPhoneStart(text[i]) || !Accepted(DigitCount(text[i..PhoneEnd(text, i, LookaheadLimit(text, i))]))
    ensures PhoneScan(text, i, ents) == PhoneScan(text, i + 1, ents)
  {
  }

  /** The scan takes the accepted candidate at `i`, pushing it unless it is
      a duplicate, and resumes at its end. */
  lemma ScanTakes(text: string, i: nat, ents: seq<Entity>)
    requires i < |text| && IsPhoneStart(text[i])
    requires Accepted(DigitCount(text[i..PhoneEnd(text, i, LookaheadLimit(text, i))]))
    ensures var e := PhoneEnd(text, i, LookaheadLimit(text, i));
      var p := Entity(Phone, text[i..e], i, e);
      PhoneScan(text, i, ents) ==
        if HasPhone(ents, p.value) then PhoneScan(text, e, ents) else [p] + PhoneScan(text, e, ents + [p])
  {
  }

  /** A pushed phone: a slice of the text starting with a digit, '+' or '(',
      at most 20 characters of digits and separators, 10 to 15 of them digits. */
  predicate IsPhoneEntity(text: string, e: Entity) {
    && e.kind == Phone
    && SliceOf(text, e)
    && IsPhoneStart(e.value[0])
    && |e.value| <= Lookahead
    && (forall j :: 0 <= j < |e.value| ==> IsPhoneChar(e.value[j]))
    && Accepted(DigitCount(e.value))
  }

  /** An accepted candidate at `i` is a phone entity of at least ten
      characters. */
  lemma AcceptedCandidate(text: string, i: nat)
    requires i < |text| && IsPhoneStart(text[i])
    requires Accepted(DigitCount(text[i..PhoneEnd(text, i, LookaheadLimit(text, i))]))
    ensures var e := PhoneEnd(text, i, LookaheadLimit(text, i));
      e >= i + MinDigits && IsPhoneEntity(text, Entity(Phone, text[i..e], i, e))
  {
  }

  /** Everything the scan from `i` pushes is a phone entity lying at or
      after `i`. */
  lemma {:induction false} PhoneScanEntities(text: string, i: nat, ents: seq<Entity>)
    ensures forall a :: 0 <= a < |PhoneScan(text, i, ents)| ==>
              IsPhoneEntity(text, PhoneScan(text, i, ents)[a]) && i <= PhoneScan(text, i, ents)[a].start
    decreases |text| - i
  {
    if i < |text| {
      if !IsPhoneStart(text[i]) {
        PhoneScanEntities(text, i + 1, ents);
      } else {
        var e := PhoneEnd(text, i, LookaheadLimit(text, i));
        if !Accepted(DigitCount(text[i..e])) {
          PhoneScanEntities(text, i + 1, ents);
        } else {
          AcceptedCandidate(text, i);
          var p := Entity(Phone, text[i..e], i, e);
          if HasPhone(ents, p.value) {
            PhoneScanEntities(text, e, ents);
          } else {
            PhoneScanEntities(text, e, ents + [p]);
          }
        }
      }
    }
  }

  /** The pushes of the scan from `i` are in increasing order and do not
      overlap. */
  lemma {:induction false} PhoneScanOrdered(text: string, i: nat, ents: seq<Entity>)
    ensures forall a, b :: 0 <= a < b < |PhoneScan(text, i, ents)| ==>
              PhoneScan(text, i, ents)[a].end <= PhoneScan(text, i, ents)[b].start
    decreases |text| - i
  {
    if i < |text| {
      if !IsPhoneStart(text[i]) {
        PhoneScanOrdered(text, i + 1, ents);
      } else {
        var e := PhoneEnd(text, i, LookaheadLimit(text, i));
        if !Accepted(DigitCount(text[i..e])) {
          PhoneScanOrdered(text, i + 1, ents);
        } else {
          AcceptedCandidate(text, i);
          var p := Entity(Phone, text[i..e], i, e);
          if HasPhone(ents, p.value) {
            PhoneScanOrdered(text, e, ents);
          } else {
            PhoneScanOrdered(text, e, ents + [p]);
            PhoneScanEntities(text, e, ents + [p]);
          }
        }
      }
    }
  }

  /** No push of the scan from `i` has a value that already has a phone
      entity in `ents` or among the earlier pushes. */
  lemma {:induction false} PhoneScanFresh(text: string, i: nat, ents: seq<Entity>)
    ensures forall a :: 0 <= a < |PhoneScan(text, i, ents)| ==>
              !HasPhone(ents + PhoneScan(text, i, ents)[..a], PhoneScan(text, i, ents)[a].value)
    decreases |text| - i
  {
    if i < |text| {
      if !IsPhoneStart(text[i]) {
        PhoneScanFresh(text, i + 1, ents);
      } else {
        var e := PhoneEnd(text, i, LookaheadLimit(text, i));
        if !Accepted(DigitCount(text[i..e])) {
          PhoneScanFresh(text, i + 1, ents);
        } else {
          AcceptedCandidate(text, i);
          var p := Entity(Phone, text[i..e], i, e);
          if HasPhone(ents, p.value) {
            PhoneScanFresh(text, e, ents);
          } else {
            var ents' := ents + [p];
            PhoneScanFresh(text, e, ents');
            var out, rest := PhoneScan(text, i, ents), PhoneScan(text, e, ents');
            assert out == [p] + rest;
            assert ents + out[..0] == ents;
            forall a | 0 < a < |out|
              ensures !HasPhone(ents + out[..a], out[a].value)
            {
              assert ents + out[..a] == ents' + rest[..a - 1];
            }
          }
        }
      }
    }
  }

  /** Every entity an `extractPhones` call pushes is a phone entity; the
      pushes are sorted, disjoint, and none duplicates a phone value already
      in the list, whether present before the call or pushed during it. */
  lemma PhonesFoundArePhones(text: string, ents: seq<Entity>)
    ensures forall a :: 0 <= a < |PhonesFound(text, ents)| ==> IsPhoneEntity(text, PhonesFound(text, ents)[a])
    ensures forall a, b :: 0 <= a < b < |PhonesFound(text, ents)| ==>
              PhonesFound(text, ents)[a].end <= PhonesFound(text, ents)[b].start
    ensures forall a :: 0 <= a < |PhonesFound(text, ents)| ==>
              !HasPhone(ents + PhonesFound(text, ents)[..a], PhonesFound(text, ents)[a].value)
  {
    PhoneScanEntities(text, 0, ents);
    PhoneScanOrdered(text, 0, ents);
    PhoneScanFresh(text, 0, ents);
  }

  /** The phones pushed are phone slices of the text. */
  lemma PhonesFoundSlices(text: string, ents: seq<Entity>)
    ensures AllOfKind(text, PhonesFound(text, ents), Phone)
  {
    PhonesFoundArePhones(text, ents);
  }

  /** After a rejected candidate the scan moves by one character only: in a
      run of 16 digits the candidate from index 0 has too many digits and is
      rejected, and the 15-digit candidate from index 1 is pushed. */
  lemma RejectionMovesOneCharacter(text: string)
    requires |text| == 16 && forall j :: 0 <= j < |text| ==> IsDigit(text[j])
    ensures PhonesFound(text, []) == [Entity(Phone, text[1..], 1, 16)]
  {
    AllDigitsCount(text[0..16]);
    AllDigitsCount(text[1..16]);
    assert LookaheadLimit(text, 0) == 16 && PhoneEnd(text, 0, 16) == 16;
    assert LookaheadLimit(text, 1) == 16 && PhoneEnd(text, 1, 16) == 16;
    assert PhoneScan(text, 0, []) == PhoneScan(text, 1, []);
    var p := Entity(Phone, text[1..16], 1, 16);
    assert !HasPhone([], p.value);
    assert PhoneScan(text, 1, []) == [p] + PhoneScan(text, 16, [p]);
    assert PhoneScan(text, 16, [p]) == [];
    assert text[1..] == text[1..16];
  }

  /** Counting digits one more character to the right. */
  lemma DigitCountStep(text: string, i: nat, k: nat)
    requires i <= k < |text|
    ensures DigitCount(text[i..k + 1]) == DigitCount(text[i..k]) + if IsDigit(text[k]) then 1 else 0
  {
    assert text[i..k + 1][..k - i] == text[i..k];
  }

  /** The inner while loop of lines 157-173: returns `phoneEnd`,
      `digitCount` and `validPhoneChars`. The two counters advance together,
      so `validPhoneChars == phoneEnd - i` always holds. */
  method ScanPhone(text: string, i: nat) returns (phoneEnd: nat, digitCount: nat, validPhoneChars: nat)
    requires i < |text|
    ensures phoneEnd == PhoneEnd(text, i, LookaheadLimit(text, i))
    ensures digitCount == DigitCount(text[i..phoneEnd])
    ensures validPhoneChars == phoneEnd - i
  {
    phoneEnd := i;
    digitCount := 0;
    validPhoneChars := 0;
    var lookAheadLimit := if |text| < i + Lookahead then |text| else i + Lookahead;
    while phoneEnd < lookAheadLimit
      invariant i <= phoneEnd <= lookAheadLimit
      invariant PhoneEnd(text, phoneEnd, lookAheadLimit) == PhoneEnd(text, i, lookAheadLimit)
      invariant digitCount == DigitCount(text[i..phoneEnd])
      invariant validPhoneChars == phoneEnd - i
      decreases lookAheadLimit - phoneEnd
    {
      var c := text[phoneEnd];
      if IsDigit(c) {
        digitCount := digitCount + 1;
        validPhoneChars := validPhoneChars + 1;
      } else if IsPhoneSeparator(c) {
        validPhoneChars := validPhoneChars + 1;
      } else {
        break;
      }
      DigitCountStep(text, i, phoneEnd);
      phoneEnd := phoneEnd + 1;
    }
  }

  /** `validPhoneChars === phoneEnd - i` (line 178) holds for every
      candidate, so the acceptance test rests on the digit count alone. */
  method ValidCharsTestVacuous(text: string, i: nat) returns (holds: bool)
    requires i < |text|
    ensures holds
  {
    var phoneEnd, digitCount, validPhoneChars := ScanPhone(text, i);
    holds := validPhoneChars == phoneEnd - i;
  }

  /** Lines 155-179 at position `i`: whether a candidate starts there and
      passes the acceptance test, and where it ends. */
  method CandidateAt(text: string, i: nat) returns (accepted: bool, phoneEnd: nat)
    requires i < |text|
    ensures accepted <==> IsPhoneStart(text[i]) && Accepted(DigitCount(text[i..PhoneEnd(text, i, LookaheadLimit(text, i))]))
    ensures accepted ==> phoneEnd == PhoneEnd(text, i, LookaheadLimit(text, i)) && i + MinDigits <= phoneEnd <= |text|
  {
    accepted, phoneEnd := false, i;
    var c := text[i];
    if IsPhoneStart(c) {
      var digitCount, validPhoneChars;
      phoneEnd, digitCount, validPhoneChars := ScanPhone(text, i);
      if MinDigits <= digitCount <= MaxDigits && validPhoneChars == phoneEnd - i {
        AcceptedCandidate(text, i);
        accepted := true;
      }
    }
  }

  /** `input.entities.find(e => e.value === potentialPhone && e.type === "phone")`. */
  method FindPhone(ents: seq<Entity>, v: string) returns (existing: Option<Entity>)
    ensures existing.None? <==> !HasPhone(ents, v)
    ensures existing.Some? ==> existing.value in ents && existing.value.value == v && existing.value.kind == Phone
  {
    var k := 0;
    while k < |ents|
      invariant k <= |ents|
      invariant forall j :: 0 <= j < k ==> !(ents[j].value == v && ents[j].kind == Phone)
    {
      if ents[k].value == v && ents[k].kind == Phone {
        return Some(ents[k]);
      }
      k := k + 1;
    }
    return None;
  }

  /** The loop state of `extractPhones` at position `i`: `emitted` pushed
      so far onto a list that now reads `ents`, and what the scan pushes from
      `i` on completes `found`, which is `PhonesFound` of the list as it was. */
  ghost predicate PhoneState(text: string, i: nat, ents: seq<Entity>, emitted: seq<Entity>, found: seq<Entity>) {
    emitted + PhoneScan(text, i, ents) == found
  }

  /** The body of the loop at position `i` short of the push: lines 155-189
      decide whether a candidate is accepted there, where it ends, and
      whether it is new; the scan state moves to the next position. */
  method PhoneAt(text: string, i: nat, ents: seq<Entity>, ghost emitted: seq<Entity>, ghost found: seq<Entity>)
    returns (accepted: bool, phoneEnd: nat, push: Option<Entity>)
    requires i < |text| && PhoneState(text, i, ents, emitted, found)
    ensures accepted ==> i < phoneEnd <= |text|
    ensures push.Some? ==> accepted
    ensures var next := if accepted then phoneEnd else i + 1;
      push.None? ==> PhoneState(text, next, ents, emitted, found)
    ensures push.Some? ==> PhoneState(text, phoneEnd, ents + [push.value], emitted + [push.value], found)
    ensures push.Some? ==> |emitted| < |found| && found[..|emitted|] == emitted
  {
    push := None;
    accepted, phoneEnd := CandidateAt(text, i);
    if accepted {
      ScanTakes(text, i, ents);
      var potentialPhone := text[i..phoneEnd];
      var existing := FindPhone(ents, potentialPhone);
      if existing.None? && !HasPhone(ents, potentialPhone) {
        var p := Entity(Phone, potentialPhone, i, phoneEnd);
        push := Some(p);
        assert emitted + [p] + PhoneScan(text, phoneEnd, ents + [p]) == found;
        assert (emitted + [p] + PhoneScan(text, phoneEnd, ents + [p]))[..|emitted|] == emitted;
      }
    } else {
      ScanSkips(text, i, ents);
    }
  }

  /** `extractPhones`: pushes `PhonesFound(text, entities)`, or the prefix
      of it pushed before the fault fires. */
  method ExtractPhones(input: IntentResult, fault: Fault) returns (outcome: Outcome)
    modifies input
    ensures input.entities == old(input.entities) + Truncate(PhonesFound(input.text, old(input.entities)), fault)
    ensures outcome == Raised <==> Fires(fault, |PhonesFound(input.text, old(input.entities))|)
  {
    var text := input.text;
    ghost var found := PhonesFound(text, input.entities);
    ghost var emitted: seq<Entity> := [];
    var before := |input.entities|;
    var maxIterations := |text|;
    var iterations := 0;
    var i := 0;
    while i < |text| && iterations < maxIterations
      invariant iterations <= i
      invariant input.entities == old(input.entities) + emitted
      invariant before == |old(input.entities)|
      invariant PhoneState(text, i, input.entities, emitted, found)
      invariant fault.FailAtPush? ==> |emitted| <= fault.index
      decreases |text| - i
    {
      var accepted, phoneEnd, push := PhoneAt(text, i, input.entities, emitted, found);
      if push.Some? {
        var p := push.value;
        if fault == FailAtPush(|input.entities| - before) {
          return Raised;
        }
        input.entities := input.entities + [p];
        emitted := emitted + [p];
      }
      if accepted {
        i := phoneEnd - 1;
      }
      i, iterations := i + 1, iterations + 1;
    }
    assert PhoneScan(text, i, input.entities) == [];
    return Completed;
  }
}
