/** The data threaded through the pipeline: entities, tokens, and the
    `IntentResult` object whose entity list the detectors push to. */
module Results {
  import opened Strings

  datatype EntityType = Email | Phone | Url | Number

  /** `{type, value, start, end}` as pushed by a detector. */
  datatype Entity = Entity(kind: EntityType, value: string, start: int, end: int)

  /** A token produced by the tokenizer; `kind` is its lexical type ("word", ...). */
  datatype Token = Token(value: string, kind: string)

  /** The value of an `IntentResult` at one moment. */
  datatype Snapshot = Snapshot(text: string, tokens: seq<Token>, entities: seq<Entity>)

  /** The slice invariant: the entity is a non-empty span of `text` and its
      value is exactly the text of that span. */
  predicate SliceOf(text: string, e: Entity) {
    0 <= e.start < e.end <= |text| && e.value == text[e.start..e.end]
  }

  /** Where a detector raises. `FailAtPush(k)`: the push of its k-th entity
      (counting from 0 within one detector call) throws, so the entities
      pushed before it stay in the list and no later one is pushed. */
  datatype Fault = NoFault | FailAtPush(index: nat)

  /** A fault for each of the four detectors. */
  datatype Faults = Faults(email: Fault, phone: Fault, url: Fault, number: Fault)

  /** How one detector call ended. */
  datatype Outcome = Completed | Raised

  /** The fault fires during a call that would push `n` entities. */
  predicate Fires(f: Fault, n: nat) {
    f.FailAtPush? && f.index < n
  }

  /** The entities a detector call that would push `found` actually leaves
      behind under fault `f`: a prefix of `found`, all of it when `f` does
      not fire. */
  function Truncate(found: seq<Entity>, f: Fault): (kept: seq<Entity>)
    ensures kept <= found
    ensures Fires(f, |found|) ==> |kept| == f.index
    ensures !Fires(f, |found|) ==> kept == found
  {
    if Fires(f, |found|) then found[..f.index] else found
  }

  /** The position of a detector in the order `extract` runs them. */
  function Rank(kind: EntityType): nat {
    match kind
    case Email => 0
    case Phone => 1
    case Url => 2
    case Number => 3
  }

  /** Every entity of `es` is a slice of `text` of the given kind. */
  predicate AllOfKind(text: string, es: seq<Entity>, kind: EntityType) {
    forall a :: 0 <= a < |es| ==> es[a].kind == kind && SliceOf(text, es[a])
  }

  /** Every entity of `es` is a slice of `text`. */
  predicate AllSlices(text: string, es: seq<Entity>) {
    forall a :: 0 <= a < |es| ==> SliceOf(text, es[a])
  }

  /** The entities of `es` come grouped by detector, in detector order. */
  predicate KindsInOrder(es: seq<Entity>) {
    forall a, b :: 0 <= a < b < |es| ==> Rank(es[a].kind) <= Rank(es[b].kind)
  }

  /** The detectors of the entities of `es` lie between `lo` and `hi`. */
  predicate RanksWithin(es: seq<Entity>, lo: nat, hi: nat) {
    forall a :: 0 <= a < |es| ==> lo <= Rank(es[a].kind) <= hi
  }

  /** Entities of one kind are in detector order. */
  lemma OneKindInOrder(text: string, es: seq<Entity>, kind: EntityType)
    requires AllOfKind(text, es, kind)
    ensures KindsInOrder(es) && RanksWithin(es, Rank(kind), Rank(kind)) && AllSlices(text, es)
  {
  }

  /** Two stretches in detector order, the detectors of the first coming no
      later than those of the second, make one stretch in detector order. */
  lemma AppendInOrder(text: string, x: seq<Entity>, y: seq<Entity>, lo: nat, mid: nat, hi: nat)
    requires lo <= mid <= hi
    requires KindsInOrder(x) && RanksWithin(x, lo, mid) && AllSlices(text, x)
    requires KindsInOrder(y) && RanksWithin(y, mid, hi) && AllSlices(text, y)
    ensures KindsInOrder(x + y) && RanksWithin(x + y, lo, hi) && AllSlices(text, x + y)
  {
    forall a | 0 <= a < |x + y|
      ensures lo <= Rank((x + y)[a].kind) <= hi && SliceOf(text, (x + y)[a])
    {
      if a < |x| {
        assert (x + y)[a] == x[a];
      } else {
        assert (x + y)[a] == y[a - |x|];
      }
    }
    forall a, b | 0 <= a < b < |x + y|
      ensures Rank((x + y)[a].kind) <= Rank((x + y)[b].kind)
    {
      if b < |x| {
        assert (x + y)[a] == x[a] && (x + y)[b] == x[b];
      } else if a < |x| {
        assert (x + y)[a] == x[a] && (x + y)[b] == y[b - |x|];
      } else {
        assert (x + y)[a] == y[a - |x|] && (x + y)[b] == y[b - |x|];
      }
    }
  }

  /** The entities of `es` are in increasing order and do not overlap. */
  predicate Ordered(es: seq<Entity>) {
    forall a, b :: 0 <= a < b < |es| ==> es[a].end <= es[b].start
  }

  /** At most one entity ending by `bound`, followed by ordered entities
      starting at `bound` or later, are ordered. */
  lemma PushThenOrdered(push: seq<Entity>, rest: seq<Entity>, bound: nat)
    requires |push| <= 1 && (push != [] ==> push[0].end <= bound)
    requires forall b :: 0 <= b < |rest| ==> bound <= rest[b].start
    requires Ordered(rest)
    ensures Ordered(push + rest)
  {
    forall a, b | 0 <= a < b < |push + rest|
      ensures (push + rest)[a].end <= (push + rest)[b].start
    {
      if a < |push| {
        assert (push + rest)[a] == push[0] && (push + rest)[b] == rest[b - 1];
      } else {
        assert (push + rest)[a] == rest[a - |push|] && (push + rest)[b] == rest[b - |push|];
      }
    }
  }

  /** What a detector call leaves behind keeps the kind and slice
      properties of what it would push. */
  lemma TruncateOfKind(text: string, found: seq<Entity>, f: Fault, kind: EntityType)
    requires AllOfKind(text, found, kind)
    ensures AllOfKind(text, Truncate(found, f), kind)
  {
  }

  /** One round of a detector's scanning loop: what it pushes and where
      the next round starts. */
  datatype SearchStep = SearchStep(push: seq<Entity>, resume: nat)

  /** A call that raised at push number `|kept|` leaves `kept` behind. */
  lemma TruncateAtFault(found: seq<Entity>, f: Fault, kept: seq<Entity>)
    requires f == FailAtPush(|kept|) && |kept| < |found| && found[..|kept|] == kept
    ensures Fires(f, |found|) && Truncate(found, f) == kept
  {
  }

  /** A call that pushed all of `found` without raising leaves it all. */
  lemma TruncateNoFault(found: seq<Entity>, f: Fault)
    requires f.FailAtPush? ==> |found| <= f.index
    ensures !Fires(f, |found|) && Truncate(found, f) == found
  {
  }

  /** The entities of a call pushed in two stretches. */
  lemma PushedInTwo(start: seq<Entity>, first: seq<Entity>, second: seq<Entity>)
    ensures start + first + second == start + (first + second)
  {
  }

  /** The shared result object. `text` is set once; the `tokens` array is
      rewritten in place by normalisation; `entities` is the list the
      detectors push to. */
  class IntentResult {
    const text: string
    const tokens: array<Token>
    var entities: seq<Entity>

    constructor (text: string, tokens: seq<Token>, entities: seq<Entity>)
      ensures this.text == text && this.entities == entities
      ensures fresh(this.tokens) && this.tokens[..] == tokens
    {
      this.text := text;
      this.tokens := new Token[|tokens|](k requires 0 <= k < |tokens| => tokens[k]);
      this.entities := entities;
    }

    function View(): Snapshot
      reads this, tokens
    {
      Snapshot(text, tokens[..], entities)
    }
  }
}
