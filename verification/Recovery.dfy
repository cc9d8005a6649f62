/** Replayed event pages: validation, deduplication by identity, and merging per ledger. */
module Recovery {
  import opened Wrappers
  import opened Sequences
  import opened Strings
  import opened EventId
  import opened Dedup

  datatype RecoveryEvent = RecoveryEvent(
    ledger: int, txHash: string, txApplicationOrder: Option<int>, opIndex: int, eventIndex: Option<int>,
    eventType: Option<string>, payload: Option<string>)

  datatype LedgerObservation = LedgerObservation(ledger: int, events: seq<RecoveryEvent>)

  datatype RecoveryError =
    | BadObservationLedger | BadEventLedger | BadTxOrder | BadOpIndex | BadEventIndex | MissingTxHash

  // ---------------------------------------------------------------------
  // Validation
  // ---------------------------------------------------------------------

  predicate SafeIndex(n: int) { 0 <= n <= MAX_SAFE_INTEGER }

  /** `validateRecoveryEvent`: the first check that fails. */
  function Validate(e: RecoveryEvent): (r: Option<RecoveryError>) {
    if !SafeIndex(e.ledger) then Some(BadEventLedger)
    else if e.txApplicationOrder.Some? && !SafeIndex(e.txApplicationOrder.value) then Some(BadTxOrder)
    else if !SafeIndex(e.opIndex) then Some(BadOpIndex)
    else if e.eventIndex.Some? && !SafeIndex(e.eventIndex.value) then Some(BadEventIndex)
    else if Trim(e.txHash) == "" then Some(MissingTxHash)
    else None
  }

  /** A count that JavaScript holds exactly: at most 2^53 - 1. */
  predicate Whole(n: int) { 0 <= n <= 9007199254740991 }

  /** Every check in turn, and the hash must hold something besides white space. */
  lemma ValidateExactly(e: RecoveryEvent)
    ensures
      var order := if e.txApplicationOrder.Some? then e.txApplicationOrder.value else 0;
      var index := if e.eventIndex.Some? then e.eventIndex.value else 0;
      && (Validate(e) == Some(BadEventLedger) <==> !Whole(e.ledger))
      && (Validate(e) == Some(BadTxOrder) <==> Whole(e.ledger) && !Whole(order))
      && (Validate(e) == Some(BadOpIndex) <==> Whole(e.ledger) && Whole(order) && !Whole(e.opIndex))
      && (Validate(e) == Some(BadEventIndex) <==>
            Whole(e.ledger) && Whole(order) && Whole(e.opIndex) && !Whole(index))
      && (Validate(e) == Some(MissingTxHash) <==>
            Whole(e.ledger) && Whole(order) && Whole(e.opIndex) && Whole(index) && AllSpaces(e.txHash))
      && (Validate(e) == None <==>
            Whole(e.ledger) && Whole(order) && Whole(e.opIndex) && Whole(index) && !AllSpaces(e.txHash))
  {
    var front, back := TrimExactly(e.txHash);
  }

  /** The error of the first invalid event. */
  function FirstError(es: seq<RecoveryEvent>): (r: Option<RecoveryError>)
    ensures r.None? <==> forall e :: e in es ==> Validate(e).None?
  {
    if es == [] then None
    else
      assert es == [es[0]] + es[1..];
      if Validate(es[0]).Some? then Validate(es[0]) else FirstError(es[1..])
  }

  lemma {:induction false} FirstErrorExactly(es: seq<RecoveryEvent>) returns (n: nat)
    requires FirstError(es).Some?
    ensures n < |es| && FirstError(es) == Validate(es[n]) && forall m :: 0 <= m < n ==> Validate(es[m]).None?
  {
    n := 0;
    if Validate(es[0]).None? {
      n := FirstErrorExactly(es[1..]);
      n := n + 1;
    }
  }

  lemma {:induction false} FirstErrorAppend(a: seq<RecoveryEvent>, b: seq<RecoveryEvent>)
    ensures FirstError(a + b) == if FirstError(a).Some? then FirstError(a) else FirstError(b)
  {
    if a == [] {
      assert a + b == b;
    } else {
      assert (a + b)[1..] == a[1..] + b;
      FirstErrorAppend(a[1..], b);
    }
  }

  // ---------------------------------------------------------------------
  // Identity
  // ---------------------------------------------------------------------

  /** `${ledger}:${txHash}:${opIndex}:${eventIndex ?? 0}` */
  function EventIdentity(e: RecoveryEvent): (s: string) {
    IntToString(e.ledger) + ":" + e.txHash + ":" + IntToString(e.opIndex) + ":" + IntToString(OrElse(e.eventIndex, 0))
  }

  /** What the identity stands for. */
  predicate SameEvent(e: RecoveryEvent, f: RecoveryEvent) {
    e.ledger == f.ledger && e.txHash == f.txHash && e.opIndex == f.opIndex &&
      OrElse(e.eventIndex, 0) == OrElse(f.eventIndex, 0)
  }

  /** The identity string is injective, even for hashes that contain colons. */
  lemma IdentityInjective(e: RecoveryEvent, f: RecoveryEvent)
    ensures EventIdentity(e) == EventIdentity(f) <==> SameEvent(e, f)
  {
    if EventIdentity(e) == EventIdentity(f) {
      var le, lf := IntToString(e.ledger), IntToString(f.ledger);
      var oe, of := IntToString(e.opIndex), IntToString(f.opIndex);
      var ie, if' := IntToString(OrElse(e.eventIndex, 0)), IntToString(OrElse(f.eventIndex, 0));
      NumbersFree(e);
      NumbersFree(f);
      LastCut(le + ":" + e.txHash + ":" + oe, ie, lf + ":" + f.txHash + ":" + of, if', ':');
      LastCut(le + ":" + e.txHash, oe, lf + ":" + f.txHash, of, ':');
      FirstCut(le, e.txHash, lf, f.txHash, ':');
      IntToStringInjective(e.ledger, f.ledger);
      IntToStringInjective(e.opIndex, f.opIndex);
      IntToStringInjective(OrElse(e.eventIndex, 0), OrElse(f.eventIndex, 0));
    }
  }

  lemma NumbersFree(e: RecoveryEvent)
    ensures Free(IntToString(e.ledger), ':') && Free(IntToString(e.opIndex), ':')
    ensures Free(IntToString(OrElse(e.eventIndex, 0)), ':')
  {
    IntToStringFree(e.ledger, ':');
    IntToStringFree(e.opIndex, ':');
    IntToStringFree(OrElse(e.eventIndex, 0), ':');
  }

  // ---------------------------------------------------------------------
  // Deduplication
  // ---------------------------------------------------------------------

  ghost function Identities(es: seq<RecoveryEvent>): (s: set<string>) { Keys(es, EventIdentity) }

  function Dedupe(es: seq<RecoveryEvent>): (r: seq<RecoveryEvent>) { Fresh({}, es, EventIdentity) }

  /** Deduplication keeps the first event of each identity and nothing else, in first-seen order. */
  lemma DedupeSpec(es: seq<RecoveryEvent>) returns (at: seq<nat>)
    ensures Positions(es, Dedupe(es), at)
    ensures forall i, j :: 0 <= i < j < |Dedupe(es)| ==> !SameEvent(Dedupe(es)[i], Dedupe(es)[j])
    ensures forall n :: 0 <= n < |es| && (forall m :: 0 <= m < n ==> !SameEvent(es[m], es[n])) ==> es[n] in Dedupe(es)
  {
    var d := Dedupe(es);
    at := FreshPositions({}, es, EventIdentity);
    FreshSpec({}, es, EventIdentity);
    forall i, j | 0 <= i < j < |d| ensures !SameEvent(d[i], d[j]) {
      IdentityInjective(d[i], d[j]);
    }
    forall n | 0 <= n < |es| && (forall m :: 0 <= m < n ==> !SameEvent(es[m], es[n])) ensures es[n] in d {
      FirstSeenKept(es, n);
    }
  }

  lemma FirstSeenKept(es: seq<RecoveryEvent>, n: nat)
    requires n < |es| && forall m :: 0 <= m < n ==> !SameEvent(es[m], es[n])
    ensures es[n] in Dedupe(es)
  {
    forall m | 0 <= m < n ensures EventIdentity(es[m]) != EventIdentity(es[n]) {
      IdentityInjective(es[m], es[n]);
    }
    FirstIsKept(es, n, EventIdentity);
  }

  method DedupeEvents(es: seq<RecoveryEvent>) returns (r: seq<RecoveryEvent>)
    ensures r == Dedupe(es)
  {
    r := KeepFirst(es, EventIdentity);
  }

  // ---------------------------------------------------------------------
  // Normal form of one ledger's events
  // ---------------------------------------------------------------------

  /** The comparator says "not after"; `collate` ranks hashes as `localeCompare` does. */
  predicate NotAfter(e: RecoveryEvent, f: RecoveryEvent, collate: string -> real) {
    var te, tf := OrElse(e.txApplicationOrder, 0), OrElse(f.txApplicationOrder, 0);
    var ie, if' := OrElse(e.eventIndex, 0), OrElse(f.eventIndex, 0);
    e.ledger < f.ledger || (e.ledger == f.ledger && (
    te < tf || (te == tf && (
    e.opIndex < f.opIndex || (e.opIndex == f.opIndex && (
    ie < if' || (ie == if' &&
    collate(e.txHash) <= collate(f.txHash))))))))
  }

  function Comparator(collate: string -> real): (le: (RecoveryEvent, RecoveryEvent) -> bool) {
    (e: RecoveryEvent, f: RecoveryEvent) => NotAfter(e, f, collate)
  }

  lemma ComparatorOrder(collate: string -> real)
    ensures TotalPreorder(Comparator(collate))
  {
  }

  function Normal(es: seq<RecoveryEvent>, collate: string -> real): (r: seq<RecoveryEvent>) {
    Sort(Dedupe(es), Comparator(collate))
  }

  /** `normalizeRecoveryBatch`. */
  function NormalizeBatch(es: seq<RecoveryEvent>,
                          collate: string -> real): (r: Result<seq<RecoveryEvent>, RecoveryError>) {
    var err := FirstError(es);
    if err.Some? then Failure(err.value) else Success(Normal(es, collate))
  }

  lemma NormalSpec(es: seq<RecoveryEvent>, collate: string -> real)
    ensures Ordered(Normal(es, collate), Comparator(collate))
    ensures KeysDiffer(Normal(es, collate), EventIdentity)
    ensures Identities(Normal(es, collate)) == Identities(es)
    ensures forall e :: e in Normal(es, collate) ==> e in es
  {
    var le, d := Comparator(collate), Dedupe(es);
    var s := Sort(d, le);
    ComparatorOrder(collate);
    SortOrdered(d, le);
    FreshSpec({}, es, EventIdentity);
    forall e ensures e in s <==> e in d {
      SortMember(d, le, e);
    }
    assert Identities(s) == Identities(d);
    PermutationDiffers(d, s, EventIdentity);
  }

  /** Position by position: ledger, transaction order, operation, event index, then the hash; a missing one is 0. */
  ghost predicate NoLater(e: RecoveryEvent, f: RecoveryEvent, collate: string -> real) {
    var te := if e.txApplicationOrder.Some? then e.txApplicationOrder.value else 0;
    var tf := if f.txApplicationOrder.Some? then f.txApplicationOrder.value else 0;
    var ie := if e.eventIndex.Some? then e.eventIndex.value else 0;
    var if' := if f.eventIndex.Some? then f.eventIndex.value else 0;
    && e.ledger <= f.ledger
    && (e.ledger == f.ledger ==> te <= tf)
    && (e.ledger == f.ledger && te == tf ==> e.opIndex <= f.opIndex)
    && (e.ledger == f.ledger && te == tf && e.opIndex == f.opIndex ==> ie <= if')
    && (e.ledger == f.ledger && te == tf && e.opIndex == f.opIndex && ie == if' ==>
          collate(e.txHash) <= collate(f.txHash))
  }

  /** A normalized page is lexicographic, and holds the first event seen of each identity and no other. */
  lemma NormalExactly(es: seq<RecoveryEvent>, collate: string -> real)
    ensures
      var page := Normal(es, collate);
      && Lexicographic(page, collate)
      && (forall e :: e in page <==> SeenFirst(es, e))
  {
    var page, le := Normal(es, collate), Comparator(collate);
    NormalSpec(es, collate);
    forall i, j | 0 <= i < j < |page| ensures NoLater(page[i], page[j], collate) && !SameEvent(page[i], page[j]) {
      assert le(page[i], page[j]);
      IdentityInjective(page[i], page[j]);
    }
    forall e ensures e in page <==> SeenFirst(es, e) {
      SortMember(Dedupe(es), le, e);
      DedupeMember(es, e);
    }
  }

  /** The event occurs with no event of its identity before it. */
  ghost predicate SeenFirst(es: seq<RecoveryEvent>, e: RecoveryEvent) {
    exists n :: 0 <= n < |es| && es[n] == e && forall m :: 0 <= m < n ==> !SameEvent(es[m], e)
  }

  lemma DedupeMember(es: seq<RecoveryEvent>, e: RecoveryEvent)
    ensures e in Dedupe(es) <==> SeenFirst(es, e)
  {
    if e in Dedupe(es) {
      var n := KeptIsFirst(es, e, EventIdentity);
      forall m | 0 <= m < n ensures !SameEvent(es[m], e) {
        IdentityInjective(es[m], e);
      }
    }
    if n :| 0 <= n < |es| && es[n] == e && forall m :: 0 <= m < n ==> !SameEvent(es[m], e) {
      FirstSeenKept(es, n);
    }
  }

  /** Normalizing a prefix first makes no difference. */
  lemma NormalAbsorbs(a: seq<RecoveryEvent>, b: seq<RecoveryEvent>, collate: string -> real)
    ensures Normal(Normal(a, collate) + b, collate) == Normal(a + b, collate)
  {
    var n, le := Normal(a, collate), Comparator(collate);
    NormalSpec(a, collate);
    FreshAppend({}, a, b, EventIdentity);
    FreshAppend({}, n, b, EventIdentity);
    FreshAll({}, n, EventIdentity);
    assert {} + Identities(n) == {} + Identities(a);
    ComparatorOrder(collate);
    SortAbsorbs(Dedupe(a), Fresh({} + Identities(a), b, EventIdentity), le);
  }

  /** Events already seen add nothing, whatever follows. */
  lemma NormalRedelivered(a: seq<RecoveryEvent>, b: seq<RecoveryEvent>, c: seq<RecoveryEvent>, collate: string -> real)
    requires Identities(b) <= Identities(a)
    ensures Normal(a + b + c, collate) == Normal(a + c, collate)
  {
    FreshRedelivered(a, b, c, EventIdentity);
  }

  // ---------------------------------------------------------------------
  // Merging observations
  // ---------------------------------------------------------------------

  predicate LedgersSafe(obs: seq<LedgerObservation>) { forall o :: o in obs ==> SafeIndex(o.ledger) }

  /** All events reported for a ledger, in page order. */
  function EventsAt(obs: seq<LedgerObservation>, ledger: int): (es: seq<RecoveryEvent>) {
    if obs == [] then []
    else EventsAt(obs[..|obs| - 1], ledger) + if obs[|obs| - 1].ledger == ledger then obs[|obs| - 1].events else []
  }

  /** The ledgers observed, in order of first appearance: the keys of the map. */
  function LedgersOf(obs: seq<LedgerObservation>): (ls: seq<int>) {
    if obs == [] then []
    else
      var ls, l := LedgersOf(obs[..|obs| - 1]), obs[|obs| - 1].ledger;
      if l in ls then ls else ls + [l]
  }

  predicate AtMost(m: int, n: int) { m <= n }

  function Ascending(obs: seq<LedgerObservation>): (ls: seq<int>) { Sort(LedgersOf(obs), AtMost) }

  /** Normalizes the given ledgers in turn; the first error ends it. */
  function NormalizeAll(obs: seq<LedgerObservation>, ls: seq<int>, collate: string -> real)
    : (r: Result<seq<LedgerObservation>, RecoveryError>)
  {
    if ls == [] then Success([])
    else
      NextPage(NormalizeAll(obs, ls[..|ls| - 1], collate), ls[|ls| - 1], EventsAt(obs, ls[|ls| - 1]), collate)
  }

  function NextPage(done: Result<seq<LedgerObservation>, RecoveryError>, ledger: int, events: seq<RecoveryEvent>,
                    collate: string -> real)
    : (r: Result<seq<LedgerObservation>, RecoveryError>)
  {
    var batch := NormalizeBatch(events, collate);
    if done.Failure? then done
    else if batch.Failure? then Failure(batch.error)
    else Success(done.value + [LedgerObservation(ledger, batch.value)])
  }

  /** `mergeObservations`. */
  function Merge(obs: seq<LedgerObservation>,
                 collate: string -> real): (r: Result<seq<LedgerObservation>, RecoveryError>) {
    if LedgersSafe(obs) then NormalizeAll(obs, Ascending(obs), collate) else Failure(BadObservationLedger)
  }

  predicate Observed(obs: seq<LedgerObservation>, ledger: int) { exists o :: o in obs && o.ledger == ledger }

  lemma {:induction false} LedgersOfSpec(obs: seq<LedgerObservation>)
    ensures Distinct(LedgersOf(obs))
    ensures forall l :: l in LedgersOf(obs) <==> Observed(obs, l)
  {
    if obs != [] {
      LedgersOfSpec(obs[..|obs| - 1]);
      assert obs == obs[..|obs| - 1] + [obs[|obs| - 1]];
    }
  }

  lemma AscendingSpec(obs: seq<LedgerObservation>)
    ensures Distinct(Ascending(obs)) && Ordered(Ascending(obs), AtMost)
    ensures forall l :: l in Ascending(obs) <==> Observed(obs, l)
  {
    LedgersOfSpec(obs);
    var ls, t := LedgersOf(obs), Ascending(obs);
    SortOrdered(ls, AtMost);
    forall l ensures l in t <==> l in ls {
      SortMember(ls, AtMost, l);
    }
    forall i, j | 0 <= i < j < |t| ensures t[i] != t[j] {
      if t[i] == t[j] {
        RepeatCounts(t, i, j);
        DistinctMultiset(ls, t[i]);
      }
    }
  }

  lemma AscendingSame(obs: seq<LedgerObservation>, obs': seq<LedgerObservation>)
    requires forall l :: Observed(obs, l) <==> Observed(obs', l)
    ensures Ascending(obs) == Ascending(obs')
  {
    AscendingSpec(obs);
    AscendingSpec(obs');
    SameElementsSameMultiset(Ascending(obs), Ascending(obs'));
    OrderedUnique(Ascending(obs), Ascending(obs'), AtMost);
  }

  lemma {:induction false} EventsAtAppend(a: seq<LedgerObservation>, b: seq<LedgerObservation>, l: int)
    ensures EventsAt(a + b, l) == EventsAt(a, l) + EventsAt(b, l)
  {
    if b == [] {
      assert a + b == a;
    } else {
      assert (a + b)[..|a + b| - 1] == a + b[..|b| - 1];
      EventsAtAppend(a, b[..|b| - 1], l);
    }
  }

  /** The merged page for one ledger. */
  ghost predicate PageOk(obs: seq<LedgerObservation>, collate: string -> real, o: LedgerObservation) {
    FirstError(EventsAt(obs, o.ledger)).None? && o.events == Normal(EventsAt(obs, o.ledger), collate)
  }

  /** One page per ledger, in the given order. */
  ghost predicate PagesOk(obs: seq<LedgerObservation>, collate: string -> real, ls: seq<int>,
                          out: seq<LedgerObservation>) {
    |out| == |ls| && forall i :: 0 <= i < |ls| ==> out[i].ledger == ls[i] && PageOk(obs, collate, out[i])
  }

  lemma {:induction false} NormalizeAllSpec(obs: seq<LedgerObservation>, ls: seq<int>, collate: string -> real)
    ensures NormalizeAll(obs, ls, collate).Success? <==> forall l :: l in ls ==> FirstError(EventsAt(obs, l)).None?
    ensures NormalizeAll(obs, ls, collate).Success? ==> PagesOk(obs, collate, ls, NormalizeAll(obs, ls, collate).value)
  {
    if ls != [] {
      NormalizeAllSpec(obs, ls[..|ls| - 1], collate);
      NextPageOk(obs, NormalizeAll(obs, ls[..|ls| - 1], collate), ls[..|ls| - 1], ls[|ls| - 1], collate);
      DropLast(ls);
    }
  }

  lemma NextPageOk(obs: seq<LedgerObservation>, done: Result<seq<LedgerObservation>, RecoveryError>, ls: seq<int>,
                   l: int, collate: string -> real)
    requires done.Success? ==> PagesOk(obs, collate, ls, done.value)
    ensures
      var r := NextPage(done, l, EventsAt(obs, l), collate);
      && (r.Success? <==> done.Success? && FirstError(EventsAt(obs, l)).None?)
      && (r.Success? ==> PagesOk(obs, collate, ls + [l], r.value))
  {
  }

  /** Merging depends only on each ledger's normal form. */
  lemma {:induction false} NormalizeAllSame(obs: seq<LedgerObservation>, obs': seq<LedgerObservation>, ls: seq<int>,
                                            collate: string -> real)
    requires forall l :: l in ls ==>
             NormalizeBatch(EventsAt(obs, l), collate) == NormalizeBatch(EventsAt(obs', l), collate)
    ensures NormalizeAll(obs, ls, collate) == NormalizeAll(obs', ls, collate)
  {
    if ls != [] {
      NormalizeAllSame(obs, obs', ls[..|ls| - 1], collate);
      assert ls[|ls| - 1] in ls;
    }
  }

  /** The ledgers of a merge are those observed, ascending, each with its normalized events: empty ledgers survive. */
  lemma MergeSpec(obs: seq<LedgerObservation>, collate: string -> real)
    requires Merge(obs, collate).Success?
    ensures
      var out := Merge(obs, collate).value;
      && (forall i, j :: 0 <= i < j < |out| ==> out[i].ledger < out[j].ledger)
      && (forall l :: Observed(out, l) <==> Observed(obs, l))
      && (forall o :: o in out ==> PageOk(obs, collate, o))
  {
    var out, ls := Merge(obs, collate).value, Ascending(obs);
    NormalizeAllSpec(obs, ls, collate);
    AscendingSpec(obs);
    PagesAscend(obs, collate, ls, out);
    forall l ensures Observed(out, l) <==> Observed(obs, l) {
      PagesObserved(obs, collate, ls, out, l);
    }
  }

  lemma PagesAscend(obs: seq<LedgerObservation>, collate: string -> real, ls: seq<int>, out: seq<LedgerObservation>)
    requires PagesOk(obs, collate, ls, out) && Distinct(ls) && Ordered(ls, AtMost)
    ensures forall i, j :: 0 <= i < j < |out| ==> out[i].ledger < out[j].ledger
  {
    forall i, j | 0 <= i < j < |out| ensures out[i].ledger < out[j].ledger {
      assert AtMost(ls[i], ls[j]) && ls[i] != ls[j];
    }
  }

  lemma PagesObserved(obs: seq<LedgerObservation>, collate: string -> real, ls: seq<int>, out: seq<LedgerObservation>,
                      l: int)
    requires PagesOk(obs, collate, ls, out)
    ensures Observed(out, l) <==> l in ls
  {
    if l in ls {
      var i :| 0 <= i < |ls| && ls[i] == l;
      assert out[i] in out;
    }
  }

  /** Ascending position by position, and no event twice. */
  ghost predicate Lexicographic(es: seq<RecoveryEvent>, collate: string -> real) {
    forall i, j :: 0 <= i < j < |es| ==> NoLater(es[i], es[j], collate) && !SameEvent(es[i], es[j])
  }

  ghost predicate Reported(obs: seq<LedgerObservation>, ledger: int, e: RecoveryEvent) {
    exists p :: p in obs && p.ledger == ledger && e in p.events
  }

  /** A merged page is lexicographic without repeats; it holds only reported events, and one for each that was. */
  lemma MergedPage(obs: seq<LedgerObservation>, collate: string -> real, o: LedgerObservation)
    requires Merge(obs, collate).Success? && o in Merge(obs, collate).value
    ensures Lexicographic(o.events, collate)
    ensures forall e :: e in o.events ==> Reported(obs, o.ledger, e)
    ensures forall e :: Reported(obs, o.ledger, e) ==> Represented(o.events, e)
  {
    MergeSpec(obs, collate);
    assert PageOk(obs, collate, o);
    EventsAtMember(obs, o.ledger);
    NormalRepresents(EventsAt(obs, o.ledger), collate);
  }

  lemma NormalRepresents(es: seq<RecoveryEvent>, collate: string -> real)
    ensures Lexicographic(Normal(es, collate), collate)
    ensures forall e :: e in Normal(es, collate) ==> e in es
    ensures forall e :: e in es ==> Represented(Normal(es, collate), e)
  {
    NormalExactly(es, collate);
    forall e | e in es ensures Represented(Normal(es, collate), e) {
      FirstLike(es, e);
    }
  }

  ghost predicate Represented(es: seq<RecoveryEvent>, e: RecoveryEvent) { exists f :: f in es && SameEvent(f, e) }

  /** The first event with an identity. */
  lemma {:induction false} FirstLike(es: seq<RecoveryEvent>, e: RecoveryEvent)
    requires e in es
    ensures exists f :: SeenFirst(es, f) && SameEvent(f, e)
  {
    var n :| 0 <= n < |es| && es[n] == e;
    FirstLikeAt(es, e, n);
  }

  lemma {:induction false} FirstLikeAt(es: seq<RecoveryEvent>, e: RecoveryEvent, n: nat)
    requires n < |es| && SameEvent(es[n], e)
    ensures exists f :: SeenFirst(es, f) && SameEvent(f, e)
    decreases n
  {
    if m :| 0 <= m < n && SameEvent(es[m], es[n]) {
      FirstLikeAt(es, e, m);
    } else {
      assert SeenFirst(es, es[n]);
    }
  }

  /** Merging fails exactly when some ledger number or some event is invalid. */
  lemma MergeSucceeds(obs: seq<LedgerObservation>, collate: string -> real)
    ensures Merge(obs, collate).Success? <==>
            LedgersSafe(obs) && forall o, e :: o in obs && e in o.events ==> Validate(e).None?
  {
    NormalizeAllSpec(obs, Ascending(obs), collate);
    AscendingSpec(obs);
    if forall o, e :: o in obs && e in o.events ==> Validate(e).None? {
      forall l | l in Ascending(obs) ensures FirstError(EventsAt(obs, l)).None? {
        EventsAtMember(obs, l);
      }
    }
    if Merge(obs, collate).Success? {
      forall o, e | o in obs && e in o.events ensures Validate(e).None? {
        EventsAtMember(obs, o.ledger);
        assert Observed(obs, o.ledger);
      }
    }
  }

  /** The events of ledger l are valid. */
  ghost predicate Clear(obs: seq<LedgerObservation>, l: int) { FirstError(EventsAt(obs, l)).None? }

  lemma NextPageFails(done: Result<seq<LedgerObservation>, RecoveryError>, l: int, events: seq<RecoveryEvent>,
                      collate: string -> real)
    requires NextPage(done, l, events, collate).Failure?
    ensures
      var r := NextPage(done, l, events, collate);
      if done.Failure? then r == done else FirstError(events) == Some(r.error)
  {
  }

  lemma {:induction false} NormalizeAllFails(obs: seq<LedgerObservation>, ls: seq<int>, collate: string -> real)
    returns (n: nat)
    requires NormalizeAll(obs, ls, collate).Failure?
    ensures n < |ls| && FirstError(EventsAt(obs, ls[n])) == Some(NormalizeAll(obs, ls, collate).error)
    ensures forall m :: 0 <= m < n ==> Clear(obs, ls[m])
  {
    var init, l := ls[..|ls| - 1], ls[|ls| - 1];
    var done := NormalizeAll(obs, init, collate);
    NextPageFails(done, l, EventsAt(obs, l), collate);
    if done.Failure? {
      n := NormalizeAllFails(obs, init, collate);
      assert forall m :: 0 <= m <= n ==> init[m] == ls[m];
    } else {
      n := |ls| - 1;
      AllClear(obs, init, collate);
      assert forall m :: 0 <= m < n ==> init[m] == ls[m];
    }
  }

  lemma AllClear(obs: seq<LedgerObservation>, ls: seq<int>, collate: string -> real)
    requires NormalizeAll(obs, ls, collate).Success?
    ensures forall m :: 0 <= m < |ls| ==> Clear(obs, ls[m])
  {
    NormalizeAllSpec(obs, ls, collate);
    forall m | 0 <= m < |ls| ensures Clear(obs, ls[m]) {
      assert ls[m] in ls;
    }
  }

  /** Every observation of an earlier ledger holds valid events only. */
  ghost predicate ValidBefore(obs: seq<LedgerObservation>, ledger: int) {
    forall o, e :: o in obs && o.ledger < ledger && e in o.events ==> Validate(e).None?
  }

  /** The error: a bad ledger number anywhere, or else the first invalid event of the lowest ledger that has one. */
  lemma MergeFails(obs: seq<LedgerObservation>, collate: string -> real) returns (ledger: int)
    requires Merge(obs, collate).Failure?
    ensures !LedgersSafe(obs) ==> Merge(obs, collate).error == BadObservationLedger
    ensures LedgersSafe(obs) ==>
              Observed(obs, ledger) && ValidBefore(obs, ledger) &&
              FirstError(EventsAt(obs, ledger)) == Some(Merge(obs, collate).error)
  {
    ledger := 0;
    if LedgersSafe(obs) {
      var ls := Ascending(obs);
      AscendingSpec(obs);
      var n := NormalizeAllFails(obs, ls, collate);
      ledger := ls[n];
      forall o, e | o in obs && o.ledger < ledger && e in o.events ensures Validate(e).None? {
        EarlierLedger(obs, ls, n, o.ledger);
        EventsAtMember(obs, o.ledger);
      }
    }
  }

  lemma EarlierLedger(obs: seq<LedgerObservation>, ls: seq<int>, n: nat, l: int)
    requires Ordered(ls, AtMost) && n < |ls| && l in ls && l < ls[n]
    requires forall m :: 0 <= m < n ==> Clear(obs, ls[m])
    ensures Clear(obs, l)
  {
    var m :| 0 <= m < |ls| && ls[m] == l;
    assert m > n ==> AtMost(ls[n], ls[m]);
  }

  lemma {:induction false} EventsAtMember(obs: seq<LedgerObservation>, l: int)
    ensures forall e :: e in EventsAt(obs, l) <==> exists o :: o in obs && o.ledger == l && e in o.events
  {
    if obs != [] {
      EventsAtMember(obs[..|obs| - 1], l);
      assert obs == obs[..|obs| - 1] + [obs[|obs| - 1]];
    }
  }

  lemma Unobserved(obs: seq<LedgerObservation>, l: int)
    requires !Observed(obs, l)
    ensures EventsAt(obs, l) == []
  {
    EventsAtMember(obs, l);
    assert EventsAt(obs, l) != [] ==> EventsAt(obs, l)[0] in EventsAt(obs, l);
  }

  // ---------------------------------------------------------------------
  // Incremental merging and redelivery
  // ---------------------------------------------------------------------

  /** A strictly ascending list holds each ledger once. */
  lemma {:induction false} OnePage(out: seq<LedgerObservation>, l: int)
    requires forall i, j :: 0 <= i < j < |out| ==> out[i].ledger < out[j].ledger
    ensures !Observed(out, l) ==> EventsAt(out, l) == []
    ensures forall o :: o in out && o.ledger == l ==> EventsAt(out, l) == o.events
  {
    if out != [] {
      var init, last := out[..|out| - 1], out[|out| - 1];
      assert out == init + [last];
      OnePage(init, l);
      if last.ledger == l {
        assert !Observed(init, l);
      } else if !Observed(out, l) {
        assert !Observed(init, l);
      }
    }
  }

  /** What a merge holds for a ledger is the normal form of what it was given. */
  lemma MergedEventsAt(a: seq<LedgerObservation>, collate: string -> real, l: int)
    requires Merge(a, collate).Success?
    ensures EventsAt(Merge(a, collate).value, l) == Normal(EventsAt(a, l), collate)
    ensures FirstError(EventsAt(a, l)).None?
  {
    var out := Merge(a, collate).value;
    MergeSpec(a, collate);
    OnePage(out, l);
    if Observed(out, l) {
      var o :| o in out && o.ledger == l;
      assert PageOk(a, collate, o);
    } else {
      Unobserved(a, l);
    }
  }

  lemma NormalStaysValid(a: seq<RecoveryEvent>, collate: string -> real)
    requires FirstError(a).None?
    ensures FirstError(Normal(a, collate)).None?
  {
    NormalSpec(a, collate);
  }

  lemma ObservedAppend(a: seq<LedgerObservation>, b: seq<LedgerObservation>, l: int)
    ensures Observed(a + b, l) <==> Observed(a, l) || Observed(b, l)
  {
  }

  lemma LedgersSafeAppend(a: seq<LedgerObservation>, b: seq<LedgerObservation>)
    ensures LedgersSafe(a + b) <==> LedgersSafe(a) && LedgersSafe(b)
  {
    forall o ensures o in a + b <==> o in a || o in b {
    }
  }

  lemma BatchIncremental(a: seq<LedgerObservation>, b: seq<LedgerObservation>, collate: string -> real, l: int)
    requires Merge(a, collate).Success?
    ensures NormalizeBatch(EventsAt(Merge(a, collate).value + b, l), collate) ==
            NormalizeBatch(EventsAt(a + b, l), collate)
  {
    var m := Merge(a, collate).value;
    MergedEventsAt(a, collate, l);
    EventsAtAppend(m, b, l);
    EventsAtAppend(a, b, l);
    NormalStaysValid(EventsAt(a, l), collate);
    FirstErrorAppend(EventsAt(m, l), EventsAt(b, l));
    FirstErrorAppend(EventsAt(a, l), EventsAt(b, l));
    NormalAbsorbs(EventsAt(a, l), EventsAt(b, l), collate);
  }

  /** Merging page by page gives what merging everything at once gives, errors included. */
  lemma MergeIncremental(a: seq<LedgerObservation>, b: seq<LedgerObservation>, collate: string -> real)
    requires Merge(a, collate).Success?
    ensures Merge(Merge(a, collate).value + b, collate) == Merge(a + b, collate)
  {
    var m := Merge(a, collate).value;
    MergeSpec(a, collate);
    forall l ensures Observed(m + b, l) <==> Observed(a + b, l) {
      ObservedAppend(m, b, l);
      ObservedAppend(a, b, l);
    }
    AscendingSame(m + b, a + b);
    forall l ensures NormalizeBatch(EventsAt(m + b, l), collate) == NormalizeBatch(EventsAt(a + b, l), collate) {
      BatchIncremental(a, b, collate, l);
    }
    NormalizeAllSame(m + b, a + b, Ascending(a + b), collate);
    MergedSafe(a, collate);
    LedgersSafeAppend(a, b);
    LedgersSafeAppend(m, b);
  }

  lemma MergedSafe(a: seq<LedgerObservation>, collate: string -> real)
    requires Merge(a, collate).Success?
    ensures LedgersSafe(a) && LedgersSafe(Merge(a, collate).value)
  {
    var m := Merge(a, collate).value;
    MergeSpec(a, collate);
    forall o | o in m ensures SafeIndex(o.ledger) {
      assert Observed(m, o.ledger);
      assert Observed(a, o.ledger);
    }
  }

  ghost predicate AlreadyIn(a: seq<LedgerObservation>, b: seq<LedgerObservation>) { forall o :: o in b ==> o in a }

  lemma EventsRedelivered(a: seq<LedgerObservation>, b: seq<LedgerObservation>, l: int)
    requires AlreadyIn(a, b)
    ensures forall e :: e in EventsAt(b, l) ==> e in EventsAt(a, l)
    ensures Identities(EventsAt(b, l)) <= Identities(EventsAt(a, l))
    ensures FirstError(EventsAt(a, l)).None? ==> FirstError(EventsAt(b, l)).None?
  {
    EventsAtMember(a, l);
    EventsAtMember(b, l);
  }

  lemma BatchRedelivered(a: seq<LedgerObservation>, b: seq<LedgerObservation>, c: seq<LedgerObservation>,
                         collate: string -> real, l: int)
    requires AlreadyIn(a, b)
    ensures NormalizeBatch(EventsAt(a + b + c, l), collate) == NormalizeBatch(EventsAt(a + c, l), collate)
  {
    var ea, eb, ec := EventsAt(a, l), EventsAt(b, l), EventsAt(c, l);
    EventsAtAppend(a + b, c, l);
    EventsAtAppend(a, b, l);
    EventsAtAppend(a, c, l);
    EventsRedelivered(a, b, l);
    FirstErrorAppend(ea + eb, ec);
    FirstErrorAppend(ea, eb);
    FirstErrorAppend(ea, ec);
    NormalRedelivered(ea, eb, ec, collate);
  }

  /** Delivering again any pages already delivered changes nothing, error or not, whatever pages follow. */
  lemma RedeliveryAnywhere(a: seq<LedgerObservation>, b: seq<LedgerObservation>, c: seq<LedgerObservation>,
                           collate: string -> real)
    requires AlreadyIn(a, b)
    ensures Merge(a + b + c, collate) == Merge(a + c, collate)
  {
    forall l ensures Observed(a + b + c, l) <==> Observed(a + c, l) {
      ObservedAppend(a + b, c, l);
      ObservedAppend(a, b, l);
      ObservedAppend(a, c, l);
    }
    AscendingSame(a + b + c, a + c);
    forall l ensures NormalizeBatch(EventsAt(a + b + c, l), collate) == NormalizeBatch(EventsAt(a + c, l), collate) {
      BatchRedelivered(a, b, c, collate, l);
    }
    NormalizeAllSame(a + b + c, a + c, Ascending(a + c), collate);
    LedgersSafeAppend(a + b, c);
    LedgersSafeAppend(a, b);
    LedgersSafeAppend(a, c);
  }

  /** In particular at the end. */
  lemma Redelivery(a: seq<LedgerObservation>, b: seq<LedgerObservation>, collate: string -> real)
    requires AlreadyIn(a, b)
    ensures Merge(a + b, collate) == Merge(a, collate)
  {
    RedeliveryAnywhere(a, b, [], collate);
    assert a + b + [] == a + b && a + [] == a;
  }

  /** A merge is its own merge. */
  lemma MergeIdempotent(a: seq<LedgerObservation>, collate: string -> real)
    requires Merge(a, collate).Success?
    ensures Merge(Merge(a, collate).value, collate) == Merge(a, collate)
  {
    var m := Merge(a, collate).value;
    MergeIncremental(a, [], collate);
    assert m + [] == m && a + [] == a;
  }

  // ---------------------------------------------------------------------
  // The map-building loop
  // ---------------------------------------------------------------------

  /** The map holds each observed ledger's events; `order` is its insertion order. */
  ghost predicate Collected(byLedger: map<int, seq<RecoveryEvent>>, order: seq<int>, obs: seq<LedgerObservation>) {
    && order == LedgersOf(obs)
    && (forall l :: l in byLedger <==> l in order)
    && (forall l :: l in byLedger ==> byLedger[l] == EventsAt(obs, l))
  }

  lemma CollectedStep(byLedger: map<int, seq<RecoveryEvent>>, order: seq<int>, obs: seq<LedgerObservation>, n: nat)
    requires n < |obs| && Collected(byLedger, order, obs[..n])
    ensures
      var l := obs[n].ledger;
      Collected(byLedger[l := (if l in byLedger then byLedger[l] else []) + obs[n].events],
                if l in byLedger then order else order + [l], obs[..n + 1])
  {
    assert obs[..n + 1][..n] == obs[..n];
    if obs[n].ledger !in byLedger {
      LedgersOfSpec(obs[..n]);
      Unobserved(obs[..n], obs[n].ledger);
    }
  }

  lemma SafeStep(obs: seq<LedgerObservation>, n: nat)
    requires n < |obs|
    ensures LedgersSafe(obs[..n + 1]) <==> LedgersSafe(obs[..n]) && SafeIndex(obs[n].ledger)
    ensures LedgersSafe(obs) ==> SafeIndex(obs[n].ledger)
  {
    assert obs[..n + 1] == obs[..n] + [obs[n]];
    LedgersSafeAppend(obs[..n], [obs[n]]);
    assert obs[n] in obs && obs[n] in [obs[n]];
  }

  method Collect(obs: seq<LedgerObservation>) returns (ok: bool, byLedger: map<int, seq<RecoveryEvent>>,
                 order: seq<int>)
    ensures ok <==> LedgersSafe(obs)
    ensures ok ==> Collected(byLedger, order, obs)
  {
    byLedger, order := map[], [];
    var n := 0;
    while n < |obs|
      invariant n <= |obs| && LedgersSafe(obs[..n]) && Collected(byLedger, order, obs[..n])
    {
      var o := obs[n];
      SafeStep(obs, n);
      if !SafeIndex(o.ledger) {
        return false, byLedger, order;
      }
      CollectedStep(byLedger, order, obs, n);
      var held := if o.ledger in byLedger then byLedger[o.ledger] else [];
      order := if o.ledger in byLedger then order else order + [o.ledger];
      byLedger := byLedger[o.ledger := held + o.events];
      n := n + 1;
    }
    assert obs[..n] == obs;
    ok := true;
  }

  method MergeObservations(obs: seq<LedgerObservation>,
                           collate: string -> real) returns (r: Result<seq<LedgerObservation>, RecoveryError>)
    ensures r == Merge(obs, collate)
  {
    var ok, byLedger, order := Collect(obs);
    if !ok {
      return Failure(BadObservationLedger);
    }
    var ls := Sort(order, AtMost);
    forall l ensures l in ls <==> l in order {
      SortMember(order, AtMost, l);
    }
    r := NormalizeEntries(byLedger, ls, collate, obs);
  }

  method NormalizeEntries(byLedger: map<int, seq<RecoveryEvent>>, ls: seq<int>, collate: string -> real,
                          ghost obs: seq<LedgerObservation>)
    returns (r: Result<seq<LedgerObservation>, RecoveryError>)
    requires forall l :: l in ls ==> l in byLedger && byLedger[l] == EventsAt(obs, l)
    ensures r == NormalizeAll(obs, ls, collate)
  {
    r := Success([]);
    var n := 0;
    while n < |ls|
      invariant n <= |ls| && r == NormalizeAll(obs, ls[..n], collate)
    {
      assert ls[..n + 1][..n] == ls[..n] && ls[n] in ls;
      r := NextPage(r, ls[n], byLedger[ls[n]], collate);
      n := n + 1;
    }
    assert ls[..n] == ls;
  }
}
