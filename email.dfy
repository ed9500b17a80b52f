/** The email detector of src/processors/extract.ts (`extractEmails`,
    `isValidEmail`): around every '@', a fixed-radius look-around builds a
    candidate, which is validated and deduplicated within one call. */
module EmailDetector {
  import opened Strings
  import opened Results

  /** Radius of the look-around window on each side of an '@'. */
  const Radius: nat := 30

  /** The class `[a-zA-Z0-9._%+-]` of the local part. */
  predicate IsLocalChar(c: char) {
    IsAsciiAlnum(c) || c == '.' || c == '_' || c == '%' || c == '+' || c == '-'
  }

  /** The class `[a-zA-Z0-9.-]` of the domain part. */
  predicate IsDomainChar(c: char) {
    IsAsciiAlnum(c) || c == '.' || c == '-'
  }

  /** `/^[a-zA-Z0-9._%+-]+$/` */
  predicate IsLocalPart(s: string) {
    |s| > 0 && forall j :: 0 <= j < |s| ==> IsLocalChar(s[j])
  }

  /** `/^[a-zA-Z0-9.-]+$/` */
  predicate IsDomainPart(s: string) {
    |s| > 0 && forall j :: 0 <= j < |s| ==> IsDomainChar(s[j])
  }

  /** `isValidEmail`, check by check. */
  predicate IsValidEmail(str: string) {
    '@' in str &&
    var parts := Split(str, "@");
    |parts| == 2 &&
    parts[0] != "" && parts[1] != "" &&
    '.' in parts[1] &&
    IsLocalPart(parts[0]) &&
    IsDomainPart(parts[1])
  }

  /** The shape of an address whose '@' is at index `k`: a non-empty local
      part over the local class, a non-empty domain over the domain class
      containing a '.'. */
  predicate EmailShape(s: string, k: int) {
    && 0 < k < |s| - 1
    && s[k] == '@'
    && (forall j :: 0 <= j < k ==> IsLocalChar(s[j]))
    && (forall j :: k < j < |s| ==> IsDomainChar(s[j]))
    && (exists j :: k < j < |s| && s[j] == '.')
  }

  /** A valid address has the shape, with its '@' where the split falls. */
  lemma ValidEmailHasShape(s: string) returns (k: nat)
    requires IsValidEmail(s)
    ensures EmailShape(s, k)
  {
    k := SplitTwoPieces(s, "@");
    OccursAtChar(s, '@', k);
    var local, domain := s[..k], s[k + 1..];
    assert Split(s, "@") == [local, domain];
    assert forall j :: 0 <= j < k ==> s[j] == local[j];
    assert forall j :: k < j < |s| ==> s[j] == domain[j - k - 1];
    var m :| 0 <= m < |domain| && domain[m] == '.';
    assert s[k + 1 + m] == '.';
  }

  /** A string of the shape holds no '@' other than the one at `k`. */
  lemma ShapeHasOneAt(s: string, k: int)
    requires EmailShape(s, k)
    ensures forall j :: 0 <= j < |s| && s[j] == '@' ==> j == k
  {
  }

  /** A string of the shape passes `isValidEmail`. */
  lemma ShapeIsValidEmail(s: string, k: nat)
    requires EmailShape(s, k)
    ensures IsValidEmail(s)
  {
    forall j | 0 <= j < k || k + 1 <= j
      ensures !OccursAt(s, "@", j)
    {
      OccursAtChar(s, '@', j);
    }
    OccursAtChar(s, '@', k);
    SplitAround(s, "@", k);
    var local, domain := s[..k], s[k + 1..];
    assert Split(s, "@") == [local, domain];
    var m :| k < m < |s| && s[m] == '.';
    assert domain[m - k - 1] == '.';
    assert IsLocalPart(local) && IsDomainPart(domain);
  }

  /** `isValidEmail` accepts exactly the strings of that shape, and such a
      string holds exactly one '@'. */
  lemma ValidEmailIff(s: string)
    ensures IsValidEmail(s) <==> exists k :: EmailShape(s, k)
    ensures forall k :: EmailShape(s, k) ==> forall j :: 0 <= j < |s| && s[j] == '@' ==> j == k
  {
    if IsValidEmail(s) {
      var k := ValidEmailHasShape(s);
    }
    if k :| EmailShape(s, k) {
      ShapeIsValidEmail(s, k);
    }
    forall k | EmailShape(s, k)
      ensures forall j :: 0 <= j < |s| && s[j] == '@' ==> j == k
    {
      ShapeHasOneAt(s, k);
    }
  }

  /** Left edge of the look-around window of the '@' at `at`:
      `Math.max(0, at - 30)`. */
  function WindowStart(at: nat): nat {
    if at >= Radius then at - Radius else 0
  }

  /** Right edge of the look-around window: `Math.min(text.length, at + 30)`. */
  function WindowEnd(text: string, at: nat): nat {
    if |text| < at + Radius then |text| else at + Radius
  }

  /** Leftward extension from `k` down to `lo` over local-part characters:
      the least `s >= lo` such that `text[s..k]` is all local characters. */
  function LocalStart(text: string, lo: nat, k: nat): (s: nat)
    requires lo <= k <= |text|
    ensures lo <= s <= k
    ensures forall j :: s <= j < k ==> IsLocalChar(text[j])
    ensures s == lo || !IsLocalChar(text[s - 1])
    decreases k
  {
    if k == lo || !IsLocalChar(text[k - 1]) then k else LocalStart(text, lo, k - 1)
  }

  /** Rightward extension from `k` up to `hi` over domain characters: the
      first index in `[k, hi)` holding a non-domain character, else `hi`. */
  function DomainEnd(text: string, k: nat, hi: nat): (e: nat)
    requires k <= hi <= |text|
    ensures k <= e <= hi
    ensures forall j :: k <= j < e ==> IsDomainChar(text[j])
    ensures e == hi || !IsDomainChar(text[e])
    decreases hi - k
  {
    if k == hi || !IsDomainChar(text[k]) then k else DomainEnd(text, k + 1, hi)
  }

  /** The `start` computed for the '@' at `at`. */
  function CandidateStart(text: string, at: nat): nat
    requires at < |text|
  {
    LocalStart(text, WindowStart(at), at)
  }

  /** The `end` computed for the '@' at `at`; it stays at `at` when the
      rightward scan does not run at all. */
  function CandidateEnd(text: string, at: nat): (e: nat)
    requires at < |text|
    ensures e <= WindowEnd(text, at)
  {
    if at + 1 < WindowEnd(text, at) then DomainEnd(text, at + 1, WindowEnd(text, at)) else at
  }

  /** The valid candidate around position `at`, if `text[at]` is an '@'. */
  function CandidateAt(text: string, at: nat): seq<Entity>
    requires at < |text|
  {
    if text[at] != '@' then []
    else
      var s, e := CandidateStart(text, at), CandidateEnd(text, at);
      if s < at < e && IsValidEmail(text[s..e]) then [Entity(Email, text[s..e], s, e)] else []
  }

  /** The valid candidates around the '@' signs at or after `from`, in order. */
  function Candidates(text: string, from: nat): seq<Entity>
    decreases |text| - from
  {
    if from >= |text| then [] else CandidateAt(text, from) + Candidates(text, from + 1)
  }

  function Values(es: seq<Entity>): set<string> {
    set e | e in es :: e.value
  }

  /** Keeps each candidate whose value is not yet in `seen`, adding it to
      `seen`: the `processedEmails` set of one call. */
  function Dedup(cs: seq<Entity>, seen: set<string>): seq<Entity>
    decreases |cs|
  {
    if cs == [] then []
    else if cs[0].value in seen then Dedup(cs[1..], seen)
    else [cs[0]] + Dedup(cs[1..], seen + {cs[0].value})
  }

  /** Index of the first entity of `cs` with value `v`, `|cs|` if none. */
  function FirstWith(cs: seq<Entity>, v: string): (k: nat)
    ensures k <= |cs|
    ensures k < |cs| ==> cs[k].value == v
    ensures forall j :: 0 <= j < k ==> cs[j].value != v
    decreases |cs|
  {
    if cs == [] then 0 else if cs[0].value == v then 0 else 1 + FirstWith(cs[1..], v)
  }

  /** What one `extractEmails` call pushes: the valid candidates, first
      occurrence of each value only. Entities already in the list play no part. */
  function EmailsFound(text: string): seq<Entity> {
    Dedup(Candidates(text, 0), {})
  }

  /** Deduplication keeps, for every value not in `seen`, exactly its first
      candidate: kept values are pairwise distinct, each kept entity is the
      first candidate with its value, and every candidate value is kept. */
  lemma DedupKeepsFirst(cs: seq<Entity>, seen: set<string>)
    ensures forall a :: 0 <= a < |Dedup(cs, seen)| ==>
              Dedup(cs, seen)[a].value !in seen &&
              FirstWith(cs, Dedup(cs, seen)[a].value) < |cs| &&
              Dedup(cs, seen)[a] == cs[FirstWith(cs, Dedup(cs, seen)[a].value)]
    ensures forall a, b :: 0 <= a < b < |Dedup(cs, seen)| ==> Dedup(cs, seen)[a].value != Dedup(cs, seen)[b].value
    ensures Values(Dedup(cs, seen)) == Values(cs) - seen
  {
    DedupFirst(cs, seen);
    DedupDistinct(cs, seen);
    DedupValues(cs, seen);
  }

  /** The values deduplication keeps are those of the candidates, less
      `seen`. */
  lemma {:induction false} DedupValues(cs: seq<Entity>, seen: set<string>)
    ensures Values(Dedup(cs, seen)) == Values(cs) - seen
    decreases |cs|
  {
    if cs != [] {
      var c, rest := cs[0], cs[1..];
      assert cs == [c] + rest;
      assert Values(cs) == {c.value} + Values(rest);
      if c.value in seen {
        DedupValues(rest, seen);
      } else {
        DedupValues(rest, seen + {c.value});
        assert Dedup(cs, seen) == [c] + Dedup(rest, seen + {c.value});
        assert Values([c] + Dedup(rest, seen + {c.value})) == {c.value} + Values(Dedup(rest, seen + {c.value}));
      }
    }
  }

  /** No value is kept twice. */
  lemma {:induction false} DedupDistinct(cs: seq<Entity>, seen: set<string>)
    ensures forall a, b :: 0 <= a < b < |Dedup(cs, seen)| ==> Dedup(cs, seen)[a].value != Dedup(cs, seen)[b].value
    decreases |cs|
  {
    if cs != [] {
      var c, rest := cs[0], cs[1..];
      if c.value in seen {
        DedupDistinct(rest, seen);
      } else {
        var seen' := seen + {c.value};
        DedupDistinct(rest, seen');
        DedupValues(rest, seen');
        var out := Dedup(rest, seen');
        assert Dedup(cs, seen) == [c] + out;
        forall b | 0 <= b < |out| ensures out[b].value != c.value {
          assert out[b] in out;
          assert out[b].value in Values(out);
        }
      }
    }
  }

  /** Each kept entity is the first candidate with its value, and that value
      was not in `seen`. */
  lemma {:induction false} DedupFirst(cs: seq<Entity>, seen: set<string>)
    ensures forall a :: 0 <= a < |Dedup(cs, seen)| ==>
              Dedup(cs, seen)[a].value !in seen &&
              FirstWith(cs, Dedup(cs, seen)[a].value) < |cs| &&
              Dedup(cs, seen)[a] == cs[FirstWith(cs, Dedup(cs, seen)[a].value)]
    decreases |cs|
  {
    if cs != [] {
      var c, rest := cs[0], cs[1..];
      if c.value in seen {
        DedupFirst(rest, seen);
        var out := Dedup(rest, seen);
        forall a | 0 <= a < |out|
          ensures FirstWith(cs, out[a].value) == 1 + FirstWith(rest, out[a].value)
        {
        }
      } else {
        var seen' := seen + {c.value};
        DedupFirst(rest, seen');
        var out := Dedup(rest, seen');
        assert Dedup(cs, seen) == [c] + out;
        forall a | 0 <= a < |out|
          ensures FirstWith(cs, out[a].value) == 1 + FirstWith(rest, out[a].value)
        {
        }
      }
    }
  }

  /** One step of the scan: the candidate at `from` (if any) followed by the
      rest, deduplicated. */
  lemma DedupStep(here: seq<Entity>, rest: seq<Entity>, seen: set<string>)
    requires |here| <= 1
    ensures Dedup(here + rest, seen) ==
              if here == [] || here[0].value in seen then Dedup(rest, seen)
              else here + Dedup(rest, seen + {here[0].value})
  {
    if here == [] {
      assert here + rest == rest;
    } else {
      var cs := here + rest;
      assert here == [here[0]] && cs[0] == here[0] && cs[1..] == rest;
      if here[0].value in seen {
        assert Dedup(cs, seen) == Dedup(rest, seen);
      } else {
        assert Dedup(cs, seen) == [here[0]] + Dedup(rest, seen + {here[0].value});
      }
    }
  }

  /** The loop state of `extractEmails` before position `i`: `emitted`
      pushed so far, `seen` the values in `processedEmails`, and what is
      still to come completes `found`, which is `EmailsFound(text)`. */
  ghost predicate ScanState(text: string, i: nat, seen: set<string>, emitted: seq<Entity>, found: seq<Entity>) {
    emitted + Dedup(Candidates(text, i), seen) == found
  }

  /** One step of the deduplicating scan, independent of the text: `here`
      (at most one candidate) is dropped when absent or already seen, and
      otherwise becomes the next entity pushed. */
  lemma DedupAdvance(here: seq<Entity>, rest: seq<Entity>, seen: set<string>, emitted: seq<Entity>, found: seq<Entity>)
    requires |here| <= 1
    requires emitted + Dedup(here + rest, seen) == found
    ensures here == [] || here[0].value in seen ==> emitted + Dedup(rest, seen) == found
    ensures here != [] && here[0].value !in seen ==>
              && emitted + [here[0]] + Dedup(rest, seen + {here[0].value}) == found
              && |emitted| < |found|
              && found[..|emitted|] == emitted
  {
    DedupStep(here, rest, seen);
    if here != [] && here[0].value !in seen {
      var out := Dedup(rest, seen + {here[0].value});
      assert here == [here[0]];
      assert emitted + [here[0]] + out == emitted + (here + out);
      assert (emitted + [here[0]] + out)[..|emitted|] == emitted;
    }
  }

  /** The candidates from `i` on are those at `i` followed by those after. */
  lemma CandidatesUnfold(text: string, i: nat)
    requires i < |text|
    ensures Candidates(text, i) == CandidateAt(text, i) + Candidates(text, i + 1)
  {
  }

  /** How the scan state advances past position `i`: unchanged when there is
      no candidate there or its value was seen, else with the candidate
      pushed, which is then the next entity of `found`. */
  lemma ScanStep(text: string, i: nat, seen: set<string>, emitted: seq<Entity>, found: seq<Entity>)
    requires i < |text| && ScanState(text, i, seen, emitted, found)
    ensures CandidateAt(text, i) == [] ==> ScanState(text, i + 1, seen, emitted, found)
    ensures CandidateAt(text, i) != [] && CandidateAt(text, i)[0].value in seen ==>
              ScanState(text, i + 1, seen, emitted, found)
    ensures CandidateAt(text, i) != [] && CandidateAt(text, i)[0].value !in seen ==>
              var e := CandidateAt(text, i)[0];
              && ScanState(text, i + 1, seen + {e.value}, emitted + [e], found)
              && |emitted| < |found|
              && found[..|emitted|] == emitted
  {
    CandidatesUnfold(text, i);
    DedupAdvance(CandidateAt(text, i), Candidates(text, i + 1), seen, emitted, found);
  }

  /** At the end of the text everything has been pushed. */
  lemma ScanDone(text: string, seen: set<string>, emitted: seq<Entity>, found: seq<Entity>)
    requires ScanState(text, |text|, seen, emitted, found)
    ensures emitted == found
  {
    assert Candidates(text, |text|) == [];
  }

  /** The '@' at `at` anchors entity `e`: it lies strictly inside the span,
      and the span stays within 30 characters of it on either side. */
  predicate AnchoredAt(text: string, e: Entity, at: int) {
    && 0 <= at < |text|
    && text[at] == '@'
    && e.start < at < e.end
    && at - Radius <= e.start
    && e.end <= at + Radius
  }

  /** An emitted email: a slice of the text, anchored at its only '@', with
      the shape `isValidEmail` asks for. */
  ghost predicate IsEmailEntity(text: string, e: Entity) {
    && e.kind == Email
    && SliceOf(text, e)
    && IsValidEmail(e.value)
    && exists at :: AnchoredAt(text, e, at) && EmailShape(e.value, at - e.start)
  }

  /** The candidate around an '@' at `at`, if there is one, is an email
      entity anchored there. */
  lemma CandidateAtIsEmail(text: string, at: nat)
    requires at < |text|
    ensures |CandidateAt(text, at)| <= 1
    ensures CandidateAt(text, at) != [] ==> IsEmailEntity(text, CandidateAt(text, at)[0])
  {
    var here := CandidateAt(text, at);
    if here != [] {
      var e := here[0];
      ValidEmailIff(e.value);
      var k :| EmailShape(e.value, k);
      assert e.value[at - e.start] == '@';
      assert AnchoredAt(text, e, at) && EmailShape(e.value, at - e.start);
    }
  }

  /** At most one email entity followed by email entities are all email
      entities. */
  lemma EmailsAppend(text: string, here: seq<Entity>, rest: seq<Entity>)
    requires |here| <= 1 && (here != [] ==> IsEmailEntity(text, here[0]))
    requires forall a :: 0 <= a < |rest| ==> IsEmailEntity(text, rest[a])
    ensures forall a :: 0 <= a < |here + rest| ==> IsEmailEntity(text, (here + rest)[a])
  {
    forall a | 0 <= a < |here + rest| ensures IsEmailEntity(text, (here + rest)[a]) {
      if a < |here| {
        assert (here + rest)[a] == here[0];
      } else {
        assert (here + rest)[a] == rest[a - |here|];
      }
    }
  }

  /** Every candidate from `from` on is an email entity. */
  lemma {:induction false} CandidatesAreEmails(text: string, from: nat)
    ensures forall a :: 0 <= a < |Candidates(text, from)| ==> IsEmailEntity(text, Candidates(text, from)[a])
    decreases |text| - from
  {
    if from < |text| {
      assert Candidates(text, from) == CandidateAt(text, from) + Candidates(text, from + 1);
      hide *;
      CandidatesAreEmails(text, from + 1);
      CandidateAtIsEmail(text, from);
      EmailsAppend(text, CandidateAt(text, from), Candidates(text, from + 1));
    }
  }

  /** Every entity an `extractEmails` call pushes satisfies the slice
      invariant and has exactly one '@', within 30 characters of both ends,
      with a valid local part and domain. */
  lemma EmailsFoundAreEmails(text: string)
    ensures forall a :: 0 <= a < |EmailsFound(text)| ==> IsEmailEntity(text, EmailsFound(text)[a])
  {
    CandidatesAreEmails(text, 0);
    DedupKeepsFirst(Candidates(text, 0), {});
  }

  /** The emails pushed are email slices of the text. */
  lemma EmailsFoundSlices(text: string)
    ensures AllOfKind(text, EmailsFound(text), Email)
  {
    EmailsFoundAreEmails(text);
  }

  /** Within one call no value is pushed twice, the first candidate with a
      value is the one pushed, and every candidate value is pushed. */
  lemma EmailsFoundFirstWins(text: string)
    ensures forall a, b :: 0 <= a < b < |EmailsFound(text)| ==> EmailsFound(text)[a].value != EmailsFound(text)[b].value
    ensures forall a :: 0 <= a < |EmailsFound(text)| ==>
              var cs := Candidates(text, 0);
              FirstWith(cs, EmailsFound(text)[a].value) < |cs| &&
              EmailsFound(text)[a] == cs[FirstWith(cs, EmailsFound(text)[a].value)]
    ensures Values(EmailsFound(text)) == Values(Candidates(text, 0))
  {
    DedupKeepsFirst(Candidates(text, 0), {});
  }

  /** The leftward scan of lines 87-97. */
  method ScanLocalStart(text: string, at: nat) returns (start: nat)
    requires at < |text|
    ensures start == CandidateStart(text, at)
  {
    var startSearch := if at >= Radius then at - Radius else 0;
    start := at;
    var j: int := at - 1;
    while j >= startSearch
      invariant startSearch - 1 <= j < at
      invariant start == if j >= startSearch then at else startSearch
      invariant LocalStart(text, startSearch, j + 1) == CandidateStart(text, at)
      decreases j
    {
      if !IsLocalChar(text[j]) {
        start := j + 1;
        break;
      }
      if j == startSearch {
        start := j;
      }
      j := j - 1;
    }
  }

  /** The rightward scan of lines 99-109. */
  method ScanDomainEnd(text: string, at: nat) returns (end: nat)
    requires at < |text|
    ensures end == CandidateEnd(text, at)
  {
    var endSearch := if |text| < at + Radius then |text| else at + Radius;
    assert endSearch == WindowEnd(text, at);
    end := at;
    var j := at + 1;
    while j < endSearch
      invariant at + 1 <= j
      invariant j < endSearch ==> end == at
      invariant at + 1 < endSearch ==> j <= endSearch && DomainEnd(text, j, endSearch) == CandidateEnd(text, at)
      invariant j >= endSearch && at + 1 < endSearch ==> end == endSearch
      invariant at + 1 >= endSearch ==> end == at
      decreases endSearch - j
    {
      if !IsDomainChar(text[j]) {
        end := j;
        break;
      }
      if j == endSearch - 1 {
        end := j + 1;
      }
      j := j + 1;
    }
  }

  /** Lines 84-114 for the '@' at `at`: the look-around scans, the
      `start < i < end` test and `isValidEmail`, yielding the candidate. */
  method CandidateAround(text: string, at: nat) returns (candidate: Option<Entity>)
    requires at < |text| && text[at] == '@'
    ensures candidate.None? <==> CandidateAt(text, at) == []
    ensures candidate.Some? ==> CandidateAt(text, at) == [candidate.value]
  {
    var start := ScanLocalStart(text, at);
    var end := ScanDomainEnd(text, at);
    candidate := None;
    if start < at < end {
      var potentialEmail := text[start..end];
      if IsValidEmail(potentialEmail) {
        candidate := Some(Entity(Email, potentialEmail, start, end));
      }
    }
  }

  /** The body of the outer loop at position `i` short of the push: the
      candidate around an '@' there, when its value is not in
      `processedEmails`, and how the scan state moves past `i`. */
  method NewCandidateAt(text: string, i: nat, processedEmails: set<string>, ghost emitted: seq<Entity>, ghost found: seq<Entity>) returns (push: Option<Entity>)
    requires i < |text| && ScanState(text, i, processedEmails, emitted, found)
    ensures push.None? ==> ScanState(text, i + 1, processedEmails, emitted, found)
    ensures push.Some? ==> ScanState(text, i + 1, processedEmails + {push.value.value}, emitted + [push.value], found)
    ensures push.Some? ==> |emitted| < |found| && found[..|emitted|] == emitted
  {
    ScanStep(text, i, processedEmails, emitted, found);
    push := None;
    if text[i] == '@' {
      var candidate := CandidateAround(text, i);
      if candidate.Some? && candidate.value.value !in processedEmails {
        push := candidate;
      }
    } else {
      assert CandidateAt(text, i) == [];
    }
  }

  /** `extractEmails`: pushes `EmailsFound(text)` onto the entity list, or
      the prefix of it pushed before the fault fires. */
  method ExtractEmails(input: IntentResult, fault: Fault) returns (outcome: Outcome)
    modifies input
    ensures input.entities == old(input.entities) + Truncate(EmailsFound(input.text), fault)
    ensures outcome == Raised <==> Fires(fault, |EmailsFound(input.text)|)
  {
    var text := input.text;
    ghost var found := EmailsFound(text);
    var processedEmails: set<string> := {};
    ghost var emitted: seq<Entity> := [];
    var before := |input.entities|;
    for i := 0 to |text|
      invariant input.entities == old(input.entities) + emitted
      invariant before == |old(input.entities)|
      invariant ScanState(text, i, processedEmails, emitted, found)
      invariant fault.FailAtPush? ==> |emitted| <= fault.index
    {
      var push := NewCandidateAt(text, i, processedEmails, emitted, found);
      if push.Some? {
        var e := push.value;
        if fault == FailAtPush(|input.entities| - before) {
          return Raised;
        }
        input.entities := input.entities + [e];
        emitted := emitted + [e];
        processedEmails := processedEmails + {e.value};
      }
    }
    ScanDone(text, processedEmails, emitted, found);
    return Completed;
  }
}
