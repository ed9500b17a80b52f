/** The number detector of src/processors/extract.ts (`extractNumbers`):
    the text is cut into runs of digits holding at most one decimal point,
    a point being taken only between two digits; each run the `isNumber`
    test accepts is pushed. A run may begin with a point, when the digit
    before it ended an earlier run. There is no deduplication. */
module NumberDetector {
  import opened Strings
  import opened Results

  /** A character a run may begin with: a digit or '.' (lines 284-287). */
  predicate IsRunStart(c: char) {
    IsDigit(c) || c == '.'
  }

  /** The first index at or after `i` where a run may begin, `|text|` if
      there is none: the skipping loop of lines 282-291. */
  function SkipToRun(text: string, i: nat): (r: nat)
    requires i <= |text|
    ensures i <= r <= |text|
    ensures forall j :: i <= j < r ==> !IsRunStart(text[j])
    ensures r < |text| ==> IsRunStart(text[r])
    decreases |text| - i
  {
    if i == |text| || IsRunStart(text[i]) then i else SkipToRun(text, i + 1)
  }

  /** The point at `i` lies between two digits (lines 311-318). */
  predicate DecimalPointAt(text: string, i: int) {
    0 < i < |text| - 1 && text[i] == '.' && IsDigit(text[i - 1]) && IsDigit(text[i + 1])
  }

  /** Where the run loop of lines 299-328, at `i` with `hasDecimal` as
      given, stops: digits are taken, and so is a first point between two
      digits; anything else ends the run. */
  function RunEnd(text: string, i: nat, hasDecimal: bool): (e: nat)
    requires i <= |text|
    ensures i <= e <= |text|
    decreases |text| - i
  {
    if i == |text| then i
    else if IsDigit(text[i]) then RunEnd(text, i + 1, hasDecimal)
    else if !hasDecimal && DecimalPointAt(text, i) then RunEnd(text, i + 1, true)
    else i
  }

  /** What is pushed for the run `text[start..e]`: itself, when it is
      non-empty and `isNumber` accepts it (lines 330-339). */
  function NumberPush(text: string, start: nat, e: nat, isNumber: string -> bool): seq<Entity>
    requires start <= e <= |text|
  {
    if e > start && isNumber(text[start..e]) then [Entity(Number, text[start..e], start, e)] else []
  }

  /** The round of the outer loop at `i`: `None` when no run starts at or
      after `i`. Otherwise the run from the next possible start, and the
      scan resumes at its end, or one past its start when it is empty
      (lines 340-342). */
  function NumberStep(text: string, i: nat, isNumber: string -> bool): (r: Option<SearchStep>)
    requires i <= |text|
    ensures r.Some? ==> r.value.resume > i
  {
    var start := SkipToRun(text, i);
    if start == |text| then None
    else
      var e := RunEnd(text, start, false);
      Some(SearchStep(NumberPush(text, start, e, isNumber), if e > start then e else start + 1))
  }

  /** What the scan pushes from `i` on. */
  function NumberScan(text: string, i: nat, isNumber: string -> bool): seq<Entity>
    decreases |text| - i
  {
    if i >= |text| then []
    else
      var step := NumberStep(text, i, isNumber);
      if step.None? then [] else step.value.push + NumberScan(text, step.value.resume, isNumber)
  }

  /** What one `extractNumbers` call pushes. */
  function NumbersFound(text: string, isNumber: string -> bool): seq<Entity> {
    NumberScan(text, 0, isNumber)
  }

  /** The text of a run: digits, with at most one point, which stands
      between two digits of the text; a run ends with a digit. */
  predicate NumberText(text: string, start: nat, e: nat)
    requires start < e <= |text|
  {
    && (forall j :: start <= j < e ==> IsDigit(text[j]) || DecimalPointAt(text, j))
    && (forall j, j' :: start <= j < e && start <= j' < e && text[j] == '.' && text[j'] == '.' ==> j == j')
    && IsDigit(text[e - 1])
  }

  /** A pushed number: a slice of the text over a run that `isNumber`
      accepts. */
  predicate IsNumberEntity(text: string, e: Entity, isNumber: string -> bool) {
    && e.kind == Number
    && SliceOf(text, e)
    && NumberText(text, e.start, e.end)
    && isNumber(e.value)
  }

  /** The run from `i` is made of digits and points between digits; once
      a point has been taken (`hasDecimal`) only digits follow, so a run
      holds at most one point; and a non-empty run ends with a digit. */
  lemma {:induction false} RunShape(text: string, i: nat, hasDecimal: bool)
    requires i <= |text|
    ensures forall j :: i <= j < RunEnd(text, i, hasDecimal) ==> IsDigit(text[j]) || DecimalPointAt(text, j)
    ensures hasDecimal ==> forall j :: i <= j < RunEnd(text, i, hasDecimal) ==> IsDigit(text[j])
    ensures forall j, j' ::
              (i <= j < RunEnd(text, i, hasDecimal) && i <= j' < RunEnd(text, i, hasDecimal) && text[j] == '.' && text[j'] == '.') ==> j == j'
    ensures RunEnd(text, i, hasDecimal) > i ==> IsDigit(text[RunEnd(text, i, hasDecimal) - 1])
    decreases |text| - i
  {
    if i < |text| {
      if IsDigit(text[i]) {
        RunShape(text, i + 1, hasDecimal);
      } else if !hasDecimal && DecimalPointAt(text, i) {
        RunShape(text, i + 1, true);
        assert RunEnd(text, i + 1, true) > i + 1 by {
          assert IsDigit(text[i + 1]);
        }
      }
    }
  }

  /** The push for the run from `start` to `e` is at most one number
      entity, spanning exactly that run. */
  lemma NumberPushShape(text: string, start: nat, e: nat, isNumber: string -> bool)
    requires start <= |text| && e == RunEnd(text, start, false)
    ensures |NumberPush(text, start, e, isNumber)| <= 1
    ensures NumberPush(text, start, e, isNumber) != [] ==>
              IsNumberEntity(text, NumberPush(text, start, e, isNumber)[0], isNumber) &&
              NumberPush(text, start, e, isNumber)[0].start == start && NumberPush(text, start, e, isNumber)[0].end == e
  {
    RunShape(text, start, false);
  }

  /** The round at `i` runs from `start`, the next possible start, to `e`,
      the end of the run there. */
  lemma NumberStepAt(text: string, i: nat, isNumber: string -> bool, start: nat, e: nat)
    requires i <= |text| && start == SkipToRun(text, i) && start < |text| && e == RunEnd(text, start, false)
    ensures NumberStep(text, i, isNumber).Some?
    ensures NumberStep(text, i, isNumber).value.push == NumberPush(text, start, e, isNumber)
    ensures NumberStep(text, i, isNumber).value.resume == if e > start then e else start + 1
  {
  }

  /** The scan goes on from where its round resumes. */
  lemma NumberScanStep(text: string, i: nat, isNumber: string -> bool)
    requires i < |text| && NumberStep(text, i, isNumber).Some?
    ensures NumberScan(text, i, isNumber) ==
              NumberStep(text, i, isNumber).value.push + NumberScan(text, NumberStep(text, i, isNumber).value.resume, isNumber)
  {
  }

  /** Everything the scan from `i` pushes is a number entity lying at or
      after `i`. */
  lemma {:induction false} NumberScanEntities(text: string, i: nat, isNumber: string -> bool)
    ensures forall a :: 0 <= a < |NumberScan(text, i, isNumber)| ==>
              IsNumberEntity(text, NumberScan(text, i, isNumber)[a], isNumber) &&
              i <= NumberScan(text, i, isNumber)[a].start
    decreases |text| - i
  {
    if i < |text| && NumberStep(text, i, isNumber).Some? {
      var start := SkipToRun(text, i);
      var e := RunEnd(text, start, false);
      NumberStepAt(text, i, isNumber, start, e);
      NumberScanStep(text, i, isNumber);
      NumberPushShape(text, start, e, isNumber);
      NumberScanEntities(text, NumberStep(text, i, isNumber).value.resume, isNumber);
    }
  }

  /** The pushes of the scan from `i` are in increasing order and do not
      overlap. */
  lemma {:induction false} NumberScanOrdered(text: string, i: nat, isNumber: string -> bool)
    ensures forall a, b :: 0 <= a < b < |NumberScan(text, i, isNumber)| ==>
              NumberScan(text, i, isNumber)[a].end <= NumberScan(text, i, isNumber)[b].start
    decreases |text| - i
  {
    if i < |text| && NumberStep(text, i, isNumber).Some? {
      var start := SkipToRun(text, i);
      var e := RunEnd(text, start, false);
      NumberStepAt(text, i, isNumber, start, e);
      NumberScanStep(text, i, isNumber);
      NumberPushShape(text, start, e, isNumber);
      var next := NumberStep(text, i, isNumber).value.resume;
      NumberScanOrdered(text, next, isNumber);
      NumberScanEntities(text, next, isNumber);
    }
  }

  /** Every number an `extractNumbers` call pushes is a slice of the text
      over digits with at most one point between two digits, accepted by
      `isNumber`; the numbers are in increasing order and do not overlap. */
  lemma NumbersFoundAreNumbers(text: string, isNumber: string -> bool)
    ensures forall a :: 0 <= a < |NumbersFound(text, isNumber)| ==>
              IsNumberEntity(text, NumbersFound(text, isNumber)[a], isNumber)
    ensures forall a, b :: 0 <= a < b < |NumbersFound(text, isNumber)| ==>
              NumbersFound(text, isNumber)[a].end <= NumbersFound(text, isNumber)[b].start
  {
    NumberScanEntities(text, 0, isNumber);
    NumberScanOrdered(text, 0, isNumber);
  }

  /** The numbers pushed are number slices of the text. */
  lemma NumbersFoundSlices(text: string, isNumber: string -> bool)
    ensures AllOfKind(text, NumbersFound(text, isNumber), Number)
  {
    NumbersFoundAreNumbers(text, isNumber);
  }

  /** In "1.2.3" the second point cannot join "1.2", and it starts a run of
      its own after the digit that ended it: both "1.2" and ".3" are
      pushed when `isNumber` accepts them. */
  lemma PointAfterDecimalStartsRun(isNumber: string -> bool)
    requires isNumber("1.2") && isNumber(".3")
    ensures NumbersFound("1.2.3", isNumber) == [Entity(Number, "1.2", 0, 3), Entity(Number, ".3", 3, 5)]
  {
    var text := "1.2.3";
    assert SkipToRun(text, 0) == 0;
    assert RunEnd(text, 3, true) == 3;
    assert RunEnd(text, 0, false) == 3;
    assert text[0..3] == "1.2";
    assert NumberScan(text, 0, isNumber) == [Entity(Number, "1.2", 0, 3)] + NumberScan(text, 3, isNumber);
    assert SkipToRun(text, 3) == 3;
    assert RunEnd(text, 5, true) == 5;
    assert RunEnd(text, 3, false) == 5;
    assert text[3..5] == ".3";
    assert NumberScan(text, 3, isNumber) == [Entity(Number, ".3", 3, 5)] + NumberScan(text, 5, isNumber);
  }

  /** Numbers are not deduplicated: the same number at two places is
      pushed twice, where the phone and email detectors would push it once. */
  lemma RepeatedNumberPushedTwice(isNumber: string -> bool)
    requires isNumber("1")
    ensures NumbersFound("1 1", isNumber) == [Entity(Number, "1", 0, 1), Entity(Number, "1", 2, 3)]
  {
    var text := "1 1";
    assert SkipToRun(text, 0) == 0;
    assert RunEnd(text, 0, false) == 1;
    assert text[0..1] == "1";
    assert NumberScan(text, 0, isNumber) == [Entity(Number, "1", 0, 1)] + NumberScan(text, 1, isNumber);
    assert SkipToRun(text, 1) == 2;
    assert RunEnd(text, 2, false) == 3;
    assert text[2..3] == "1";
    assert NumberScan(text, 1, isNumber) == [Entity(Number, "1", 2, 3)] + NumberScan(text, 3, isNumber);
  }

  /** The skipping loop of lines 282-291. */
  method SkipNonNumeric(text: string, from: nat) returns (i: nat)
    requires from <= |text|
    ensures i == SkipToRun(text, from)
  {
    i := from;
    while i < |text|
      invariant from <= i <= |text|
      invariant SkipToRun(text, i) == SkipToRun(text, from)
      decreases |text| - i
    {
      var currentChar := text[i];
      if IsDigit(currentChar) || currentChar == '.' {
        break;
      }
      i := i + 1;
    }
  }

  /** The run loop of lines 295-328 from `start`: returns where the run
      ends and `validNumber`, which is set exactly when the run is not
      empty. */
  method ScanRun(text: string, start: nat) returns (i: nat, validNumber: bool)
    requires start <= |text|
    ensures i == RunEnd(text, start, false)
    ensures validNumber <==> i > start
  {
    i := start;
    var hasDecimal := false;
    validNumber := false;
    while i < |text|
      invariant start <= i <= |text|
      invariant RunEnd(text, i, hasDecimal) == RunEnd(text, start, false)
      invariant validNumber <==> i > start
      decreases |text| - i
    {
      var c := text[i];
      if IsDigit(c) {
        validNumber := true;
        i := i + 1;
      } else if c == '.' && !hasDecimal {
        if i > 0 && IsDigit(text[i - 1]) && i < |text| - 1 && IsDigit(text[i + 1]) {
          hasDecimal := true;
          validNumber := true;
          i := i + 1;
        } else {
          break;
        }
      } else {
        break;
      }
    }
  }

  /** The loop state of `extractNumbers` at `i`: what the scan pushes from
      `i` on completes `found`. */
  ghost predicate NumberState(text: string, i: nat, isNumber: string -> bool, emitted: seq<Entity>, found: seq<Entity>) {
    emitted + NumberScan(text, i, isNumber) == found
  }

  /** The body of the outer loop at `i` short of the push: lines 282-342
      skip to the next run, scan it and test it; `atEnd` is the `break` of
      line 293, and `next` is where the loop goes on. */
  method NumberAt(text: string, i: nat, isNumber: string -> bool, ghost emitted: seq<Entity>, ghost found: seq<Entity>)
    returns (atEnd: bool, next: nat, push: Option<Entity>)
    requires i < |text| && NumberState(text, i, isNumber, emitted, found)
    ensures atEnd ==> push.None? && emitted == found
    ensures !atEnd ==> i < next <= |text|
    ensures !atEnd && push.None? ==> NumberState(text, next, isNumber, emitted, found)
    ensures push.Some? ==> !atEnd && NumberState(text, next, isNumber, emitted + [push.value], found)
    ensures push.Some? ==> |emitted| < |found| && found[..|emitted|] == emitted
  {
    push := None;
    var start := SkipNonNumeric(text, i);
    next := start;
    atEnd := start >= |text|;
    if atEnd {
      assert NumberScan(text, i, isNumber) == [];
      return;
    }
    var end, validNumber := ScanRun(text, start);
    NumberStepAt(text, i, isNumber, start, end);
    NumberScanStep(text, i, isNumber);
    ghost var pushed := NumberPush(text, start, end, isNumber);
    next := if end > start then end else start + 1;
    assert emitted + pushed + NumberScan(text, next, isNumber) == found;
    if end > start && validNumber {
      var numberValue := text[start..end];
      if isNumber(numberValue) {
        push := Some(Entity(Number, numberValue, start, end));
        assert pushed == [push.value];
        assert found[..|emitted|] == (emitted + (pushed + NumberScan(text, next, isNumber)))[..|emitted|];
      } else {
        assert emitted + pushed == emitted;
      }
    } else {
      assert emitted + pushed == emitted;
    }
  }

  /** `extractNumbers`: pushes `NumbersFound(text, isNumber)`, or the
      prefix of it pushed before the fault fires. The floating-point
      `isNumber` test is the parameter `isNumber`. */
  method ExtractNumbers(input: IntentResult, isNumber: string -> bool, fault: Fault) returns (outcome: Outcome)
    modifies input
    ensures input.entities == old(input.entities) + Truncate(NumbersFound(input.text, isNumber), fault)
    ensures outcome == Raised <==> Fires(fault, |NumbersFound(input.text, isNumber)|)
  {
    var text := input.text;
    ghost var found := NumbersFound(text, isNumber);
    ghost var emitted: seq<Entity> := [];
    var before := |input.entities|;
    var i := 0;
    while i < |text|
      invariant input.entities == old(input.entities) + emitted
      invariant before == |old(input.entities)|
      invariant NumberState(text, i, isNumber, emitted, found)
      invariant fault.FailAtPush? ==> |emitted| <= fault.index
      decreases |text| - i
    {
      var atEnd, next, push := NumberAt(text, i, isNumber, emitted, found);
      if atEnd {
        break;
      }
      if push.Some? {
        var n := push.value;
        if fault == FailAtPush(|input.entities| - before) {
          TruncateAtFault(found, fault, emitted);
          return Raised;
        }
        input.entities := input.entities + [n];
        emitted := emitted + [n];
      }
      i := next;
    }
    if i >= |text| {
      assert NumberScan(text, i, isNumber) == [];
    }
    assert emitted == found;
    TruncateNoFault(found, fault);
    return Completed;
  }
}
