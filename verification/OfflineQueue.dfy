/** The SDK's offline queue: replay walks a snapshot while enqueues and clears land between its steps. */
module OfflineQueue {
  import opened Options
  import opened Subsequences

  datatype Id = Id(text: string)

  datatype Request = Request(isPost: bool, path: string, body: string, idempotencyKey: Option<string>)
  datatype Entry = Entry(id: Id, request: Request, retryCount: nat)

  const NON_IDEMPOTENT_POST_PATHS: set<string> :=
    {"/api/v1/offramp/moonpay", "/api/v1/offramp/transak", "/api/v1/cex/route", "/api/v1/fund"}

  predicate NeedsKey(r: Request) {
    r.isPost && r.path in NON_IDEMPOTENT_POST_PATHS
  }

  /** These four routes, and only by POST, are the ones that must not be repeated blindly. */
  lemma NeedsKeyIff(r: Request)
    ensures NeedsKey(r) <==>
              && r.isPost
              && (r.path == "/api/v1/offramp/moonpay" || r.path == "/api/v1/offramp/transak" || r.path == "/api/v1/cex/route"
                  || r.path == "/api/v1/fund")
  {
  }

  /** A key is made once, at enqueue time, where one is needed and the caller brought none. */
  function Keyed(r: Request, generated: string): (k: Request)
    ensures NeedsKey(k) ==> k.idempotencyKey.Some?
    ensures k == r.(idempotencyKey := k.idempotencyKey) && (r.idempotencyKey.Some? || !NeedsKey(r) ==> k == r)
  {
    if NeedsKey(r) && r.idempotencyKey.None?
    then r.(idempotencyKey := Some(generated)) else r
  }

  /** How one replayed entry ends; the last is a `shouldRetry` that itself throws. */
  datatype Outcome = Succeeds | Retryable | Refused | ClassifierThrows

  /** `rest` is the part of the snapshot not yet settled; its head is being executed. */
  datatype Queue = Queue(pending: seq<Entry>, deadLetters: seq<Entry>, replaying: bool, rest: seq<Entry>)

  /** What an observer saw: entries as accepted, their order, who was delivered or cleared, attempts and aborted attempts. */
  datatype History = History(accepted: map<Id, Entry>, order: seq<Id>, delivered: seq<Id>, cleared: set<Id>,
                             attempts: map<Id, nat>, aborted: map<Id, nat>)

  datatype World = World(q: Queue, h: History)

  datatype Op =
    | Enqueue(request: Request, id: Id, generated: string)
    | StartReplay
    | Settle(outcome: Outcome)
    | FinishReplay
    | Clear

  function IdsOf(entries: seq<Entry>): (ids: seq<Id>)
    ensures |ids| == |entries| && forall i :: 0 <= i < |ids| ==> ids[i] == entries[i].id
  {
    if |entries| == 0 then [] else [entries[0].id] + IdsOf(entries[1..])
  }

  /** `removeById`: the first entry with that id. */
  function RemoveById(entries: seq<Entry>, id: Id): seq<Entry> {
    if |entries| == 0 then []
    else if entries[0].id == id then entries[1..]
    else [entries[0]] + RemoveById(entries[1..], id)
  }

  /** The shared entry object, where it is still queued, sees its retry count go up. */
  function Bump(entries: seq<Entry>, id: Id): (r: seq<Entry>)
    ensures |r| == |entries|
    ensures forall i :: 0 <= i < |r| ==> r[i] == if entries[i].id == id then Retried(entries[i]) else entries[i]
  {
    if |entries| == 0 then []
    else [if entries[0].id == id then Retried(entries[0]) else entries[0]] + Bump(entries[1..], id)
  }

  function Retried(e: Entry): Entry {
    e.(retryCount := e.retryCount + 1)
  }

  function Count(m: map<Id, nat>, id: Id): nat {
    if id in m then m[id] else 0
  }

  function SettleHead(q: Queue, outcome: Outcome, maxRetries: int): Queue
    requires |q.rest| > 0
  {
    var e, rest := q.rest[0], q.rest[1..];
    match outcome
    case Succeeds => q.(pending := RemoveById(q.pending, e.id), rest := rest)
    case Refused => q.(pending := RemoveById(q.pending, e.id), deadLetters := q.deadLetters + [e], rest := rest)
    case Retryable =>
      var tried := Retried(e);
      if tried.retryCount >= maxRetries
      then q.(pending := RemoveById(q.pending, e.id), deadLetters := q.deadLetters + [tried], rest := rest)
      else q.(pending := Bump(q.pending, e.id), rest := rest)
    case ClassifierThrows => q.(replaying := false, rest := [])
  }

  function Step(w: World, op: Op, maxSize: int, maxRetries: int): World {
    var q, h := w.q, w.h;
    match op
    case Enqueue(request, id, generated) =>
      if |q.pending| >= maxSize then w
      else
        var e := Entry(id, Keyed(request, generated), 0);
        World(q.(pending := q.pending + [e]), h.(accepted := h.accepted[id := e], order := h.order + [id]))
    case StartReplay => if q.replaying || |q.pending| == 0 then w else w.(q := q.(replaying := true, rest := q.pending))
    case Settle(outcome) =>
      if |q.rest| == 0 then w
      else
        var id := q.rest[0].id;
        World(SettleHead(q, outcome, maxRetries),
              h.(delivered := if outcome.Succeeds? then h.delivered + [id] else h.delivered,
                 attempts := h.attempts[id := Count(h.attempts, id) + 1],
                 aborted := if outcome.ClassifierThrows? then h.aborted[id := Count(h.aborted, id) + 1] else h.aborted))
    case FinishReplay => if |q.rest| == 0 then w.(q := q.(replaying := false)) else w
    case Clear => World(q.(pending := []), h.(cleared := h.cleared + set e | e in q.pending :: e.id))
  }

  class OfflineQueue {
    var queue: seq<Entry>
    var deadLetters: seq<Entry>
    var replaying: bool
    var snapshot: seq<Entry>
    const maxSize: int
    const maxRetries: int
    ghost var seen: History

    ghost function View(): World
      reads this
    {
      World(Queue(queue, deadLetters, replaying, snapshot), seen)
    }

    /** Starts from what storage holds, which is what an earlier queue persisted. */
    constructor (maxSize: int, maxRetries: int, loaded: seq<Entry>)
      ensures View() == Loaded(loaded) && this.maxSize == maxSize && this.maxRetries == maxRetries
    {
      this.maxSize, this.maxRetries := maxSize, maxRetries;
      queue, deadLetters, replaying, snapshot := loaded, [], false, [];
      seen := Loaded(loaded).h;
    }

    method Enqueue(request: Request, id: Id, generated: string) returns (ok: bool)
      modifies this
      ensures View() == Step(old(View()), Op.Enqueue(request, id, generated), maxSize, maxRetries)
      ensures ok <==> |old(queue)| < maxSize
    {
      if |queue| >= maxSize {
        return false;
      }
      var item := Entry(id, Keyed(request, generated), 0);
      queue := queue + [item];
      seen := seen.(accepted := seen.accepted[id := item], order := seen.order + [id]);
      return true;
    }

    method StartReplay()
      modifies this
      ensures View() == Step(old(View()), Op.StartReplay, maxSize, maxRetries)
    {
      if replaying || |queue| == 0 {
        return;
      }
      replaying := true;
      snapshot := queue;
    }

    method Remove(id: Id)
      modifies this`queue
      ensures queue == RemoveById(old(queue), id)
    {
      var i := 0;
      while i < |queue| && queue[i].id != id
        invariant i <= |queue|
        invariant RemoveById(queue, id) == queue[..i] + RemoveById(queue[i..], id)
      {
        assert queue[i..][1..] == queue[i + 1..];
        i := i + 1;
      }
      if i < |queue| {
        assert queue[i..][1..] == queue[i + 1..];
        queue := queue[..i] + queue[i + 1..];
      }
    }

    /** The head of the snapshot has been executed with this outcome. */
    method Settle(outcome: Outcome)
      modifies this
      ensures View() == Step(old(View()), Op.Settle(outcome), maxSize, maxRetries)
    {
      if |snapshot| == 0 {
        return;
      }
      var entry := snapshot[0];
      seen := seen.(attempts := seen.attempts[entry.id := Count(seen.attempts, entry.id) + 1]);
      match outcome {
        case Succeeds =>
          seen := seen.(delivered := seen.delivered + [entry.id]);
          Remove(entry.id);
          snapshot := snapshot[1..];
        case Refused =>
          deadLetters := deadLetters + [entry];
          Remove(entry.id);
          snapshot := snapshot[1..];
        case Retryable =>
          var tried := Retried(entry);
          if tried.retryCount >= maxRetries {
            deadLetters := deadLetters + [tried];
            Remove(entry.id);
          } else {
            queue := Bump(queue, entry.id);
          }
          snapshot := snapshot[1..];
        case ClassifierThrows =>
          seen := seen.(aborted := seen.aborted[entry.id := Count(seen.aborted, entry.id) + 1]);
          replaying := false;
          snapshot := [];
      }
    }

    method FinishReplay()
      modifies this
      ensures View() == Step(old(View()), Op.FinishReplay, maxSize, maxRetries)
    {
      if |snapshot| == 0 {
        replaying := false;
      }
    }

    method ClearQueue()
      modifies this
      ensures View() == Step(old(View()), Op.Clear, maxSize, maxRetries)
    {
      seen := seen.(cleared := seen.cleared + set e | e in queue :: e.id);
      queue := [];
    }
  }

  // ----- the invariant -----

  predicate DistinctIds(entries: seq<Entry>) {
    forall i, j :: 0 <= i < j < |entries| ==> entries[i].id != entries[j].id
  }

  predicate Distinct(ids: seq<Id>) {
    forall i, j :: 0 <= i < j < |ids| ==> ids[i] != ids[j]
  }

  function IdSet(entries: seq<Entry>): set<Id> {
    set e | e in entries :: e.id
  }

  ghost function EntryWith(entries: seq<Entry>, id: Id): (e: Entry)
    requires id in IdSet(entries)
    ensures e in entries && e.id == id
  {
    var e :| e in entries && e.id == id;
    e
  }

  ghost function AsMap(entries: seq<Entry>): map<Id, Entry> {
    map id | id in IdSet(entries) :: EntryWith(entries, id)
  }

  ghost function Loaded(entries: seq<Entry>): World {
    World(Queue(entries, [], false, []), History(AsMap(entries), IdsOf(entries), [], {}, map[], map[]))
  }

  /** Attempts that ended in a verdict. */
  function Tries(h: History, id: Id): int {
    Count(h.attempts, id) - Count(h.aborted, id)
  }

  /** How often an entry accepted with this retry count may be tried. */
  function Budget(e: Entry, maxRetries: int): int {
    if maxRetries - e.retryCount > 1 then maxRetries - e.retryCount else 1
  }

  /** A queued entry is the accepted one, request and key included, with one retry per try; a tried one has retries left. */
  ghost predicate Tracked(h: History, e: Entry, maxRetries: int) {
    && e.id in h.accepted
    && Tries(h, e.id) >= 0
    && e == h.accepted[e.id].(retryCount := h.accepted[e.id].retryCount + Tries(h, e.id))
    && (Tries(h, e.id) > 0 ==> e.retryCount < maxRetries)
  }

  function SeqSet(ids: seq<Id>): set<Id> {
    set id | id in ids
  }

  /** Pending, dead-lettered and delivered never overlap, a pending entry is not cleared, and together they are all accepted. */
  ghost predicate Partition(accepted: set<Id>, pending: set<Id>, dead: set<Id>, delivered: set<Id>, cleared: set<Id>) {
    && accepted == pending + dead + delivered + cleared
    && pending !! (dead + delivered + cleared)
    && dead !! delivered
  }

  /** An entry still to be settled is pending as the snapshot has it, or was cleared meanwhile. */
  ghost predicate RestOk(rest: seq<Entry>, pending: seq<Entry>, settled: set<Id>, cleared: set<Id>) {
    forall e :: e in rest ==>
                  && e.id !in settled
                  && (e in pending || (e.id in cleared && e.id !in IdSet(pending)))
  }

  ghost predicate AllTracked(h: History, entries: seq<Entry>, maxRetries: int) {
    forall e :: e in entries ==> Tracked(h, e, maxRetries)
  }

  ghost predicate DeadOk(h: History, dead: seq<Entry>) {
    forall e :: e in dead ==> e.id in h.accepted && e == h.accepted[e.id].(retryCount := e.retryCount)
  }

  ghost predicate CountsOk(h: History, maxRetries: int) {
    && (forall id :: id in h.accepted ==> Tries(h, id) <= Budget(h.accepted[id], maxRetries))
    && (forall id :: id !in h.accepted ==> Count(h.attempts, id) == 0 == Count(h.aborted, id))
  }

  ghost predicate OrderOk(h: History, pending: seq<Entry>) {
    SeqSet(h.order) == h.accepted.Keys && SubSequence(IdsOf(pending), h.order)
  }

  ghost predicate Shape(w: World) {
    && DistinctIds(w.q.pending) && DistinctIds(w.q.deadLetters) && DistinctIds(w.q.rest) && Distinct(w.h.delivered)
    && (!w.q.replaying ==> |w.q.rest| == 0)
  }

  ghost predicate Settled(w: World) {
    && Partition(w.h.accepted.Keys, IdSet(w.q.pending), IdSet(w.q.deadLetters), SeqSet(w.h.delivered), w.h.cleared)
    && RestOk(w.q.rest, w.q.pending, IdSet(w.q.deadLetters) + SeqSet(w.h.delivered), w.h.cleared)
  }

  ghost predicate Inv(w: World, maxRetries: int) {
    && Shape(w)
    && Settled(w)
    && AllTracked(w.h, w.q.pending, maxRetries) && AllTracked(w.h, w.q.rest, maxRetries)
    && DeadOk(w.h, w.q.deadLetters)
    && CountsOk(w.h, maxRetries)
    && OrderOk(w.h, w.q.pending)
  }

  // ----- the list operations -----

  lemma {:induction false} IdsSnoc(s: seq<Entry>, e: Entry)
    ensures IdsOf(s + [e]) == IdsOf(s) + [e.id]
  {
    if |s| > 0 {
      assert (s + [e])[1..] == s[1..] + [e];
      IdsSnoc(s[1..], e);
    } else {
      assert s + [e] == [e];
    }
  }

  lemma {:induction false} RemoveExact(s: seq<Entry>, id: Id)
    requires DistinctIds(s)
    ensures var r := RemoveById(s, id);
            && DistinctIds(r)
            && (forall x :: x in r ==> x in s && x.id != id)
            && (forall x :: x in s && x.id != id ==> x in r)
            && IdSet(r) == IdSet(s) - {id}
  {
    if |s| > 0 {
      assert s == [s[0]] + s[1..];
      if s[0].id != id {
        RemoveExact(s[1..], id);
        var rest := RemoveById(s[1..], id);
        forall i | 0 <= i < |rest|
          ensures rest[i].id != s[0].id
        {
          assert rest[i] in rest;
          assert rest[i] in s[1..];
        }
      }
    }
  }

  lemma {:induction false} RemoveKeepsOrder(s: seq<Entry>, id: Id, order: seq<Id>)
    requires SubSequence(IdsOf(s), order)
    ensures SubSequence(IdsOf(RemoveById(s, id)), order)
    decreases |order|
  {
    if |s| > 0 {
      assert IdsOf(s)[0] == s[0].id && IdsOf(s)[1..] == IdsOf(s[1..]);
      if s[0].id == order[0] {
        if s[0].id == id {
          SubDrop(IdsOf(s[1..]), order);
        } else {
          RemoveKeepsOrder(s[1..], id, order[1..]);
          var r := RemoveById(s, id);
          assert r[1..] == RemoveById(s[1..], id) && IdsOf(r)[1..] == IdsOf(r[1..]);
        }
      } else {
        RemoveKeepsOrder(s, id, order[1..]);
        SubDrop(IdsOf(RemoveById(s, id)), order);
      }
    }
  }

  lemma BumpIds(s: seq<Entry>, id: Id)
    ensures IdsOf(Bump(s, id)) == IdsOf(s)
    ensures IdSet(Bump(s, id)) == IdSet(s)
    ensures DistinctIds(s) ==> DistinctIds(Bump(s, id))
  {
    hide Bump, IdsOf;
    var r := Bump(s, id);
    forall x | x in IdSet(r)
      ensures x in IdSet(s)
    {
      var i :| 0 <= i < |r| && r[i].id == x;
      assert s[i] in s;
    }
    forall x | x in IdSet(s)
      ensures x in IdSet(r)
    {
      var i :| 0 <= i < |s| && s[i].id == x;
      assert r[i] in r;
    }
  }

  lemma BumpExact(s: seq<Entry>, e: Entry)
    requires DistinctIds(s) && (e in s || e.id !in IdSet(s))
    ensures forall x :: x in Bump(s, e.id) ==> x == Retried(e) || (x in s && x.id != e.id)
    ensures forall x :: x in s && x.id != e.id ==> x in Bump(s, e.id)
  {
    hide Bump, IdsOf, Retried;
    var r := Bump(s, e.id);
    forall x | x in r
      ensures x == Retried(e) || (x in s && x.id != e.id)
    {
      var i :| 0 <= i < |r| && r[i] == x;
      assert s[i] in s;
      assert s[i].id == e.id ==> s[i].id in IdSet(s);
    }
    forall x | x in s && x.id != e.id
      ensures x in r
    {
      var i :| 0 <= i < |s| && s[i] == x;
      assert r[i] in r;
    }
  }

  lemma IdSetSnoc(s: seq<Entry>, e: Entry)
    ensures IdSet(s + [e]) == IdSet(s) + {e.id}
    ensures DistinctIds(s) && e.id !in IdSet(s) ==> DistinctIds(s + [e])
  {
    forall x | x in IdSet(s) + {e.id}
      ensures x in IdSet(s + [e])
    {
      if x == e.id {
        assert e in s + [e];
      } else {
        var y :| y in s && y.id == x;
        assert y in s + [e];
      }
    }
    assert forall i :: 0 <= i < |s| ==> s[i].id in IdSet(s) by {
      assert forall i :: 0 <= i < |s| ==> s[i] in s;
    }
  }

  lemma SeqSetSnoc(s: seq<Id>, id: Id)
    ensures SeqSet(s + [id]) == SeqSet(s) + {id}
    ensures Distinct(s) && id !in SeqSet(s) ==> Distinct(s + [id])
  {
    assert forall x :: x in s + [id] <==> x in s || x == id;
    assert forall i :: 0 <= i < |s| ==> s[i] in SeqSet(s);
  }

  // ----- every step keeps the invariant -----

  /** Entries other than `id` do not notice another try of `id`, nor a new id being accepted. */
  lemma TrackedElsewhere(h: History, h': History, entries: seq<Entry>, some: seq<Entry>, id: Id, maxRetries: int)
    requires AllTracked(h, entries, maxRetries)
    requires forall e :: e in some ==> e in entries && e.id != id
    requires forall x :: x != id ==> Count(h'.attempts, x) == Count(h.attempts, x) && Count(h'.aborted, x) == Count(h.aborted, x)
    requires forall x :: x in h.accepted && x != id ==> x in h'.accepted && h'.accepted[x] == h.accepted[x]
    ensures AllTracked(h', some, maxRetries)
  {
    forall e | e in some
      ensures Tracked(h', e, maxRetries)
    {
      assert Tracked(h, e, maxRetries);
    }
  }

  lemma EnqueueKeeps(w: World, w': World, e: Entry, maxRetries: int)
    requires Inv(w, maxRetries) && e.id !in w.h.accepted && e.retryCount == 0
    requires w'.q == w.q.(pending := w.q.pending + [e])
    requires w'.h == w.h.(accepted := w.h.accepted[e.id := e], order := w.h.order + [e.id])
    ensures Inv(w', maxRetries)
  {
    hide SubSequence, IdsOf, CountsOk, IdSet, SeqSet, DistinctIds, Distinct, RestOk, DeadOk, AllTracked, OrderOk;
    TrackedAccepted(w, maxRetries);
    hide Tracked;
    EnqueueOrder(w.h, w'.h, w.q.pending, e);
    EnqueueCounts(w.h, w'.h, w.q.pending, e, maxRetries);
    TrackedElsewhere(w.h, w'.h, w.q.rest, w.q.rest, e.id, maxRetries);
    EnqueueDead(w.h, w'.h, w.q.deadLetters, e);
    IdSetSnoc(w.q.pending, e);
    RestGrows(w.q.rest, w.q.pending, e, IdSet(w.q.deadLetters) + SeqSet(w.h.delivered), w.h.cleared);
  }

  lemma EnqueueOrder(h: History, h': History, pending: seq<Entry>, e: Entry)
    requires OrderOk(h, pending)
    requires h'.order == h.order + [e.id] && h'.accepted == h.accepted[e.id := e]
    ensures OrderOk(h', pending + [e])
  {
    IdsSnoc(pending, e);
    SubSnoc(IdsOf(pending), h.order, e.id);
    SeqSetSnoc(h.order, e.id);
    hide SubSequence, IdsOf;
  }

  lemma EnqueueCounts(h: History, h': History, pending: seq<Entry>, e: Entry, maxRetries: int)
    requires CountsOk(h, maxRetries) && AllTracked(h, pending, maxRetries)
    requires e.id !in h.accepted && e.retryCount == 0 && forall x :: x in pending ==> x.id != e.id
    requires h' == h.(accepted := h.accepted[e.id := e], order := h'.order)
    ensures CountsOk(h', maxRetries) && AllTracked(h', pending + [e], maxRetries)
  {
    TrackedElsewhere(h, h', pending, pending, e.id, maxRetries);
    assert Tracked(h', e, maxRetries);
    hide Tracked;
  }

  lemma EnqueueDead(h: History, h': History, dead: seq<Entry>, e: Entry)
    requires DeadOk(h, dead) && e.id !in h.accepted && h'.accepted == h.accepted[e.id := e]
    ensures DeadOk(h', dead)
  {
  }

  lemma RestGrows(rest: seq<Entry>, pending: seq<Entry>, e: Entry, settled: set<Id>, cleared: set<Id>)
    requires RestOk(rest, pending, settled, cleared) && forall x :: x in rest ==> x.id != e.id
    ensures RestOk(rest, pending + [e], settled, cleared)
  {
    IdSetSnoc(pending, e);
  }

  lemma TrackedAccepted(w: World, maxRetries: int)
    requires Inv(w, maxRetries)
    ensures forall x :: x in w.q.pending || x in w.q.rest ==> x.id in w.h.accepted
  {
    hide Shape, Settled, DeadOk, CountsOk, OrderOk;
    forall x | x in w.q.pending || x in w.q.rest
      ensures x.id in w.h.accepted
    {
      assert Tracked(w.h, x, maxRetries);
    }
  }

  lemma ClearKeeps(w: World, w': World, maxRetries: int)
    requires Inv(w, maxRetries)
    requires w'.q == w.q.(pending := []) && w'.h == w.h.(cleared := w.h.cleared + IdSet(w.q.pending))
    ensures Inv(w', maxRetries)
  {
    hide OrderOk;
    assert OrderOk(w'.h, []) by { EmptyInOrder(w, w', maxRetries); }
    CountsFrame(w.h, w'.h, maxRetries);
    TrackedElsewhereAll(w.h, w'.h, w.q.rest, maxRetries);
    hide Tracked, CountsOk;
    assert AllTracked(w'.h, [], maxRetries);
    assert forall e :: e in w.q.pending ==> e.id in IdSet(w.q.pending);
    assert IdSet([]) == {};
    hide SeqSet, Distinct;
  }

  lemma EmptyInOrder(w: World, w': World, maxRetries: int)
    requires Inv(w, maxRetries) && w'.h.order == w.h.order && w'.h.accepted == w.h.accepted
    ensures OrderOk(w'.h, [])
  {
  }

  lemma TrackedElsewhereAll(h: History, h': History, entries: seq<Entry>, maxRetries: int)
    requires AllTracked(h, entries, maxRetries)
    requires h' == h.(cleared := h'.cleared, delivered := h'.delivered)
    ensures AllTracked(h', entries, maxRetries)
  {
    forall e | e in entries
      ensures Tracked(h', e, maxRetries)
    {
      assert Tracked(h, e, maxRetries);
    }
  }

  lemma CountsFrame(h: History, h': History, maxRetries: int)
    requires CountsOk(h, maxRetries) && h' == h.(cleared := h'.cleared, delivered := h'.delivered)
    ensures CountsOk(h', maxRetries)
  {
  }

  lemma StartKeeps(w: World, maxSize: int, maxRetries: int)
    requires Inv(w, maxRetries)
    ensures Inv(Step(w, StartReplay, maxSize, maxRetries), maxRetries)
  {
    hide Tracked, CountsOk, OrderOk;
    assert forall e :: e in w.q.pending ==> e.id in IdSet(w.q.pending);
  }

  /** What is known of the head of the snapshot. */
  lemma HeadOk(w: World, maxRetries: int)
    requires Inv(w, maxRetries) && |w.q.rest| > 0
    ensures var e := w.q.rest[0];
            && Tracked(w.h, e, maxRetries)
            && e.id !in IdSet(w.q.deadLetters) && e.id !in SeqSet(w.h.delivered)
            && (e in w.q.pending || (e.id in w.h.cleared && e.id !in IdSet(w.q.pending)))
            && forall x :: x in w.q.rest[1..] ==> x in w.q.rest && x.id != e.id
  {
    hide Tracked, CountsOk, OrderOk, IdSet, SeqSet;
    assert w.q.rest[0] in w.q.rest;
  }

  /** The history after one more try of `id` that ended in a verdict. */
  function TriedOnce(h: History, id: Id): History {
    h.(attempts := h.attempts[id := Count(h.attempts, id) + 1])
  }

  lemma TriedCounts(h: History, e: Entry, maxRetries: int)
    requires CountsOk(h, maxRetries) && Tracked(h, e, maxRetries)
    ensures CountsOk(TriedOnce(h, e.id), maxRetries)
  {
  }

  /** The head leaves the queue and the snapshot after a try; the caller says where it went. */
  lemma HeadLeaves(w: World, w': World, maxRetries: int)
    requires Inv(w, maxRetries) && |w.q.rest| > 0
    requires w'.q == w.q.(pending := RemoveById(w.q.pending, w.q.rest[0].id), rest := w.q.rest[1..], deadLetters := w'.q.deadLetters)
    requires w'.h == TriedOnce(w.h, w.q.rest[0].id).(delivered := w'.h.delivered)
    ensures AllTracked(w'.h, w'.q.pending, maxRetries) && AllTracked(w'.h, w'.q.rest, maxRetries)
    ensures CountsOk(w'.h, maxRetries) && OrderOk(w'.h, w'.q.pending)
    ensures DistinctIds(w'.q.pending) && DistinctIds(w'.q.rest)
    ensures IdSet(w'.q.pending) == IdSet(w.q.pending) - {w.q.rest[0].id}
    ensures RestOk(w'.q.rest, w'.q.pending, IdSet(w.q.deadLetters) + SeqSet(w.h.delivered) + {w.q.rest[0].id}, w.h.cleared)
  {
    var e := w.q.rest[0];
    HeadOk(w, maxRetries);
    RemoveExact(w.q.pending, e.id);
    RemoveKeepsOrder(w.q.pending, e.id, w.h.order);
    TriedCounts(w.h, e, maxRetries);
    TrackedElsewhere(w.h, w'.h, w.q.pending, w'.q.pending, e.id, maxRetries);
    TrackedElsewhere(w.h, w'.h, w.q.rest, w'.q.rest, e.id, maxRetries);
    CountsFrame(TriedOnce(w.h, e.id), w'.h, maxRetries);
    hide SubSequence, IdsOf, RemoveById, Tracked, CountsOk, IdSet, SeqSet, AllTracked, DeadOk;
  }

  lemma SucceedsKeeps(w: World, w': World, maxRetries: int)
    requires Inv(w, maxRetries) && |w.q.rest| > 0
    requires w'.q == w.q.(pending := RemoveById(w.q.pending, w.q.rest[0].id), rest := w.q.rest[1..])
    requires w'.h == TriedOnce(w.h, w.q.rest[0].id).(delivered := w.h.delivered + [w.q.rest[0].id])
    ensures Inv(w', maxRetries)
  {
    hide SubSequence, IdsOf, RemoveById, CountsOk, IdSet, SeqSet, AllTracked, OrderOk, DistinctIds, Distinct, RestOk, DeadOk;
    var id := w.q.rest[0].id;
    HeadLeaves(w, w', maxRetries);
    HeadOk(w, maxRetries);
    SeqSetSnoc(w.h.delivered, id);
    DeadFrame(w.h, w'.h, w.q.deadLetters);
    RestFrame(w'.q.rest, w'.q.pending, IdSet(w.q.deadLetters) + SeqSet(w.h.delivered) + {id},
              IdSet(w'.q.deadLetters) + SeqSet(w'.h.delivered), w.h.cleared);
  }

  lemma RestFrame(rest: seq<Entry>, pending: seq<Entry>, settled: set<Id>, settled': set<Id>, cleared: set<Id>)
    requires RestOk(rest, pending, settled, cleared) && settled' <= settled
    ensures RestOk(rest, pending, settled', cleared)
  {
  }

  lemma DeadSnoc(h: History, h': History, dead: seq<Entry>, last: Entry)
    requires DeadOk(h, dead) && h'.accepted == h.accepted
    requires last.id in h.accepted && last == h.accepted[last.id].(retryCount := last.retryCount)
    ensures DeadOk(h', dead + [last])
  {
  }

  /** The head is dead-lettered as `last`, itself with some retry count. */
  lemma DeadLetterKeeps(w: World, w': World, last: Entry, maxRetries: int)
    requires Inv(w, maxRetries) && |w.q.rest| > 0
    requires last == w.q.rest[0].(retryCount := last.retryCount)
    requires w'.q == w.q.(pending := RemoveById(w.q.pending, last.id), rest := w.q.rest[1..], deadLetters := w.q.deadLetters + [last])
    requires w'.h == TriedOnce(w.h, last.id)
    ensures Inv(w', maxRetries)
  {
    hide SubSequence, IdsOf, RemoveById, CountsOk, IdSet, SeqSet, AllTracked, OrderOk, DistinctIds, Distinct, RestOk, DeadOk;
    HeadLeaves(w, w', maxRetries);
    HeadOk(w, maxRetries);
    IdSetSnoc(w.q.deadLetters, last);
    DeadSnoc(w.h, w'.h, w.q.deadLetters, last);
    hide Tracked;
    RestFrame(w'.q.rest, w'.q.pending, IdSet(w.q.deadLetters) + SeqSet(w.h.delivered) + {last.id},
              IdSet(w'.q.deadLetters) + SeqSet(w'.h.delivered), w.h.cleared);
  }

  lemma RetryKeeps(w: World, w': World, maxRetries: int)
    requires Inv(w, maxRetries) && |w.q.rest| > 0 && w.q.rest[0].retryCount + 1 < maxRetries
    requires w'.q == w.q.(pending := Bump(w.q.pending, w.q.rest[0].id), rest := w.q.rest[1..])
    requires w'.h == TriedOnce(w.h, w.q.rest[0].id)
    ensures Inv(w', maxRetries)
  {
    var e := w.q.rest[0];
    hide SubSequence, IdsOf, Bump, Retried, CountsOk, IdSet, SeqSet, DistinctIds, Distinct, RestOk, DeadOk, AllTracked, OrderOk;
    HeadOk(w, maxRetries);
    BumpIds(w.q.pending, e.id);
    BumpExact(w.q.pending, e);
    TriedCounts(w.h, e, maxRetries);
    OrderBump(w.h, w'.h, w.q.pending, e.id);
    RetriedTracked(w.h, e, maxRetries);
    hide Tracked;
    TrackedElsewhere(w.h, w'.h, w.q.rest, w'.q.rest, e.id, maxRetries);
    BumpTracked(w.h, w'.h, w.q.pending, w'.q.pending, e, maxRetries);
    DeadFrame(w.h, w'.h, w.q.deadLetters);
    BumpRest(w.q.rest, w.q.pending, e, IdSet(w.q.deadLetters) + SeqSet(w.h.delivered), w.h.cleared);
    RestTail(w);
  }

  lemma OrderBump(h: History, h': History, pending: seq<Entry>, id: Id)
    requires OrderOk(h, pending) && h'.order == h.order && h'.accepted == h.accepted
    ensures OrderOk(h', Bump(pending, id))
  {
    BumpIds(pending, id);
  }

  lemma RetriedTracked(h: History, e: Entry, maxRetries: int)
    requires Tracked(h, e, maxRetries) && e.retryCount + 1 < maxRetries
    ensures Tracked(TriedOnce(h, e.id), Retried(e), maxRetries)
  {
  }

  lemma DeadFrame(h: History, h': History, dead: seq<Entry>)
    requires DeadOk(h, dead) && h'.accepted == h.accepted
    ensures DeadOk(h', dead)
  {
  }

  lemma BumpRest(rest: seq<Entry>, pending: seq<Entry>, e: Entry, settled: set<Id>, cleared: set<Id>)
    requires RestOk(rest, pending, settled, cleared) && DistinctIds(rest) && DistinctIds(pending)
    requires |rest| > 0 && rest[0] == e && (e in pending || e.id !in IdSet(pending))
    ensures RestOk(rest[1..], Bump(pending, e.id), settled, cleared)
  {
    BumpIds(pending, e.id);
    BumpExact(pending, e);
    hide Bump, Retried;
  }

  lemma RestTail(w: World)
    requires |w.q.rest| > 0 && DistinctIds(w.q.rest)
    ensures DistinctIds(w.q.rest[1..])
  {
  }

  lemma BumpTracked(h: History, h': History, pending: seq<Entry>, pending': seq<Entry>, e: Entry, maxRetries: int)
    requires AllTracked(h, pending, maxRetries) && h' == TriedOnce(h, e.id)
    requires forall x :: x in pending' ==> x == Retried(e) || (x in pending && x.id != e.id)
    requires Tracked(h', Retried(e), maxRetries)
    ensures AllTracked(h', pending', maxRetries)
  {
    forall x | x in pending' && x != Retried(e)
      ensures Tracked(h', x, maxRetries)
    {
      assert Tracked(h, x, maxRetries);
    }
  }

  lemma ThrowKeeps(w: World, w': World, maxRetries: int)
    requires Inv(w, maxRetries) && |w.q.rest| > 0
    requires w'.q == w.q.(replaying := false, rest := [])
    requires w'.h == TriedOnce(w.h, w.q.rest[0].id).(
                       aborted := w.h.aborted[w.q.rest[0].id := Count(w.h.aborted, w.q.rest[0].id) + 1])
    ensures Inv(w', maxRetries)
  {
    hide SubSequence, IdsOf, IdSet, SeqSet, DistinctIds, Distinct, AllTracked, RestOk, DeadOk, OrderOk, CountsOk;
    HeadOk(w, maxRetries);
    ThrowCounts(w.h, w'.h, w.q.rest[0], maxRetries);
    SameTries(w.h, w'.h, w.q.pending, maxRetries);
    hide Tracked;
    DeadFrame(w.h, w'.h, w.q.deadLetters);
    OrderFrame(w.h, w'.h, w.q.pending);
    NothingLeft(w'.h, w.q.pending, IdSet(w.q.deadLetters) + SeqSet(w.h.delivered), w.h.cleared, maxRetries);
  }

  lemma ThrowCounts(h: History, h': History, e: Entry, maxRetries: int)
    requires CountsOk(h, maxRetries) && Tracked(h, e, maxRetries)
    requires h' == TriedOnce(h, e.id).(aborted := h.aborted[e.id := Count(h.aborted, e.id) + 1])
    ensures CountsOk(h', maxRetries) && forall x :: Tries(h', x) == Tries(h, x)
  {
  }

  lemma OrderFrame(h: History, h': History, pending: seq<Entry>)
    requires OrderOk(h, pending) && h'.order == h.order && h'.accepted == h.accepted
    ensures OrderOk(h', pending)
  {
  }

  lemma NothingLeft(h: History, pending: seq<Entry>, settled: set<Id>, cleared: set<Id>, maxRetries: int)
    ensures AllTracked(h, [], maxRetries) && RestOk([], pending, settled, cleared) && DistinctIds([])
  {
  }

  lemma SameTries(h: History, h': History, entries: seq<Entry>, maxRetries: int)
    requires AllTracked(h, entries, maxRetries) && h'.accepted == h.accepted && forall x :: Tries(h', x) == Tries(h, x)
    ensures AllTracked(h', entries, maxRetries)
  {
    forall e | e in entries
      ensures Tracked(h', e, maxRetries)
    {
      assert Tracked(h, e, maxRetries);
    }
  }

  /** Every operation keeps the invariant; ids are assumed fresh, as the source's random ids are meant to be. */
  lemma StepKeepsInv(w: World, op: Op, maxSize: int, maxRetries: int)
    requires Inv(w, maxRetries) && (op.Enqueue? ==> op.id !in w.h.accepted)
    ensures Inv(Step(w, op, maxSize, maxRetries), maxRetries)
  {
    match op
    case Enqueue(request, id, generated) =>
      if |w.q.pending| < maxSize {
        hide Inv;
        EnqueueKeeps(w, Step(w, op, maxSize, maxRetries), Entry(id, Keyed(request, generated), 0), maxRetries);
      }
    case StartReplay => StartKeeps(w, maxSize, maxRetries);
    case Clear =>
      hide Inv;
      ClearKeeps(w, Step(w, op, maxSize, maxRetries), maxRetries);
    case FinishReplay =>
    case Settle(outcome) => if |w.q.rest| > 0 { SettleKeeps(w, outcome, maxSize, maxRetries); }
  }

  lemma SettleKeeps(w: World, outcome: Outcome, maxSize: int, maxRetries: int)
    requires Inv(w, maxRetries) && |w.q.rest| > 0
    ensures Inv(Step(w, Settle(outcome), maxSize, maxRetries), maxRetries)
  {
    hide Inv, RemoveById, Bump;
    var w', e := Step(w, Settle(outcome), maxSize, maxRetries), w.q.rest[0];
    match outcome
    case Succeeds => SucceedsKeeps(w, w', maxRetries);
    case Refused => DeadLetterKeeps(w, w', e, maxRetries);
    case Retryable =>
      if e.retryCount + 1 < maxRetries {
        RetryKeeps(w, w', maxRetries);
      } else {
        DeadLetterKeeps(w, w', Retried(e), maxRetries);
      }
    case ClassifierThrows => ThrowKeeps(w, w', maxRetries);
  }

  // ----- whole runs -----

  lemma AsMapExact(entries: seq<Entry>)
    requires DistinctIds(entries)
    ensures AsMap(entries).Keys == IdSet(entries)
    ensures forall e :: e in entries ==> e.id in AsMap(entries) && AsMap(entries)[e.id] == e
  {
    forall e | e in entries
      ensures e.id in IdSet(entries) && EntryWith(entries, e.id) == e
    {
      var i :| 0 <= i < |entries| && entries[i] == e;
      var j :| 0 <= j < |entries| && entries[j] == EntryWith(entries, e.id);
    }
  }

  lemma IdsAreIdSet(entries: seq<Entry>)
    ensures SeqSet(IdsOf(entries)) == IdSet(entries)
  {
    hide IdsOf;
    assert forall i :: 0 <= i < |entries| ==> IdsOf(entries)[i] == entries[i].id && entries[i] in entries;
  }

  lemma {:induction false} SubSelf(ids: seq<Id>)
    ensures SubSequence(ids, ids)
  {
    if |ids| > 0 {
      SubSelf(ids[1..]);
    }
  }

  lemma LoadedOk(entries: seq<Entry>, maxRetries: int)
    requires DistinctIds(entries)
    ensures Inv(Loaded(entries), maxRetries)
  {
    hide AsMap, SubSequence, IdsOf, AllTracked, IdSet, DistinctIds;
    AsMapExact(entries);
    IdsAreIdSet(entries);
    SubSelf(IdsOf(entries));
    LoadedTracked(entries, maxRetries);
    NothingLeft(Loaded(entries).h, entries, {}, {}, maxRetries);
    assert SeqSet([]) == {} && IdSet([]) == {} by { NoIds(); }
  }

  lemma NoIds()
    ensures SeqSet([]) == {} && IdSet([]) == {}
  {
  }

  lemma LoadedTracked(entries: seq<Entry>, maxRetries: int)
    requires DistinctIds(entries)
    ensures AllTracked(Loaded(entries).h, entries, maxRetries)
  {
    AsMapExact(entries);
    hide AsMap, IdsOf;
  }

  ghost function Run(loaded: seq<Entry>, ops: seq<Op>, maxSize: int, maxRetries: int): World {
    if |ops| == 0 then Loaded(loaded)
    else Step(Run(loaded, ops[..|ops| - 1], maxSize, maxRetries), ops[|ops| - 1], maxSize, maxRetries)
  }

  /** Storage held distinct ids, and no enqueue drew an id seen before. */
  ghost predicate FreshIds(loaded: seq<Entry>, ops: seq<Op>, maxSize: int, maxRetries: int) {
    && DistinctIds(loaded)
    && forall i :: 0 <= i < |ops| && ops[i].Enqueue? ==> ops[i].id !in Run(loaded, ops[..i], maxSize, maxRetries).h.accepted
  }

  lemma FreshBefore(loaded: seq<Entry>, ops: seq<Op>, maxSize: int, maxRetries: int)
    requires FreshIds(loaded, ops, maxSize, maxRetries) && |ops| > 0
    ensures FreshIds(loaded, ops[..|ops| - 1], maxSize, maxRetries)
  {
    var before := ops[..|ops| - 1];
    forall i | 0 <= i < |before| && before[i].Enqueue?
      ensures before[i].id !in Run(loaded, before[..i], maxSize, maxRetries).h.accepted
    {
      assert before[..i] == ops[..i];
    }
  }

  lemma {:induction false} RunKeepsInv(loaded: seq<Entry>, ops: seq<Op>, maxSize: int, maxRetries: int)
    requires FreshIds(loaded, ops, maxSize, maxRetries)
    ensures Inv(Run(loaded, ops, maxSize, maxRetries), maxRetries)
  {
    hide Inv, Step;
    if |ops| == 0 {
      LoadedOk(loaded, maxRetries);
    } else {
      var before := ops[..|ops| - 1];
      FreshBefore(loaded, ops, maxSize, maxRetries);
      RunKeepsInv(loaded, before, maxSize, maxRetries);
      StepKeepsInv(Run(loaded, before, maxSize, maxRetries), ops[|ops| - 1], maxSize, maxRetries);
    }
  }

  lemma {:induction false} NothingCleared(loaded: seq<Entry>, ops: seq<Op>, maxSize: int, maxRetries: int)
    requires forall i :: 0 <= i < |ops| ==> !ops[i].Clear?
    ensures Run(loaded, ops, maxSize, maxRetries).h.cleared == {}
  {
    hide SettleHead;
    if |ops| > 0 {
      NothingCleared(loaded, ops[..|ops| - 1], maxSize, maxRetries);
    }
  }

  /**
   * Whatever interleaves with a replay: each accepted entry is in exactly one of pending, delivered and dead-lettered
   * (when nothing was cleared), is delivered at most once, and is still pending in the order of acceptance with its
   * request and key unchanged.
   */
  lemma EntriesAreConserved(loaded: seq<Entry>, ops: seq<Op>, maxSize: int, maxRetries: int)
    requires FreshIds(loaded, ops, maxSize, maxRetries)
    ensures var w := Run(loaded, ops, maxSize, maxRetries);
            var pending, dead, delivered := IdSet(w.q.pending), IdSet(w.q.deadLetters), SeqSet(w.h.delivered);
            && w.h.accepted.Keys == pending + dead + delivered + w.h.cleared
            && pending !! dead && pending !! delivered && dead !! delivered && pending !! w.h.cleared
            && ((forall i :: 0 <= i < |ops| ==> !ops[i].Clear?) ==> w.h.accepted.Keys == pending + dead + delivered)
            && DistinctIds(w.q.pending) && DistinctIds(w.q.deadLetters) && Distinct(w.h.delivered)
            && SubSequence(IdsOf(w.q.pending), w.h.order)
            && forall e :: e in w.q.pending || e in w.q.deadLetters ==>
                             e.id in w.h.accepted && e.request == w.h.accepted[e.id].request
  {
    var w := Run(loaded, ops, maxSize, maxRetries);
    RunKeepsInv(loaded, ops, maxSize, maxRetries);
    if forall i :: 0 <= i < |ops| ==> !ops[i].Clear? {
      NothingCleared(loaded, ops, maxSize, maxRetries);
    }
    hide Run, IdSet, SeqSet, IdsOf, SubSequence, CountsOk, RestOk;
    assert forall e :: e in w.q.pending ==> Tracked(w.h, e, maxRetries);
  }

  lemma {:induction false} NothingAborted(loaded: seq<Entry>, ops: seq<Op>, maxSize: int, maxRetries: int)
    requires forall i :: 0 <= i < |ops| ==> ops[i] != Settle(ClassifierThrows)
    ensures Run(loaded, ops, maxSize, maxRetries).h.aborted == map[]
  {
    hide SettleHead;
    if |ops| > 0 {
      NothingAborted(loaded, ops[..|ops| - 1], maxSize, maxRetries);
    }
  }

  predicate HasItsKey(r: Request) {
    NeedsKey(r) ==> r.idempotencyKey.Some?
  }

  ghost predicate KeyedMap(accepted: map<Id, Entry>) {
    forall id :: id in accepted ==> HasItsKey(accepted[id].request)
  }

  ghost predicate AllKeyed(entries: seq<Entry>) {
    forall e :: e in entries ==> HasItsKey(e.request)
  }

  lemma OnlyEnqueueAccepts(w: World, op: Op, maxSize: int, maxRetries: int)
    ensures var accepted := Step(w, op, maxSize, maxRetries).h.accepted;
            accepted == if op.Enqueue? && |w.q.pending| < maxSize
                        then w.h.accepted[op.id := Entry(op.id, Keyed(op.request, op.generated), 0)] else w.h.accepted
  {
    hide SettleHead;
  }

  lemma {:induction false} AcceptedAreKeyed(loaded: seq<Entry>, ops: seq<Op>, maxSize: int, maxRetries: int)
    requires DistinctIds(loaded) && AllKeyed(loaded)
    ensures KeyedMap(Run(loaded, ops, maxSize, maxRetries).h.accepted)
  {
    hide Step, AsMap;
    if |ops| == 0 {
      AsMapExact(loaded);
    } else {
      AcceptedAreKeyed(loaded, ops[..|ops| - 1], maxSize, maxRetries);
      var before, op := Run(loaded, ops[..|ops| - 1], maxSize, maxRetries), ops[|ops| - 1];
      OnlyEnqueueAccepts(before, op, maxSize, maxRetries);
      assert KeyedMap(before.h.accepted);
    }
  }

  /** No retry ever goes out without the idempotency key it needs: what is queued or about to be executed carries one. */
  lemma RetriesCarryTheirKey(loaded: seq<Entry>, ops: seq<Op>, maxSize: int, maxRetries: int)
    requires FreshIds(loaded, ops, maxSize, maxRetries) && AllKeyed(loaded)
    ensures var w := Run(loaded, ops, maxSize, maxRetries);
            && AllKeyed(w.q.pending) && AllKeyed(w.q.rest)
            && forall e :: e in w.q.rest ==> e.id in w.h.accepted && e.request == w.h.accepted[e.id].request
  {
    var w := Run(loaded, ops, maxSize, maxRetries);
    RunKeepsInv(loaded, ops, maxSize, maxRetries);
    AcceptedAreKeyed(loaded, ops, maxSize, maxRetries);
    hide Run, Shape, Settled, CountsOk, OrderOk, DeadOk, HasItsKey;
    assert forall e :: e in w.q.pending || e in w.q.rest ==> Tracked(w.h, e, maxRetries);
  }

  /** A replay walks its snapshot front to back: no call makes it repeat an entry or take one that came later. */
  lemma ReplayWalksItsSnapshot(w: World, op: Op, maxSize: int, maxRetries: int)
    requires Inv(w, maxRetries) && w.q.replaying
    ensures var rest' := Step(w, op, maxSize, maxRetries).q.rest;
            rest' == if !op.Settle? || |w.q.rest| == 0 then w.q.rest
                     else if op.outcome.ClassifierThrows? then []
                     else w.q.rest[1..]
  {
    hide Inv, RemoveById, Bump;
  }

  /** Not counting replays that `shouldRetry` aborted, an entry is attempted at most `max(1, maxRetries)` times from 0. */
  lemma AttemptsAreBounded(loaded: seq<Entry>, ops: seq<Op>, maxSize: int, maxRetries: int, id: Id)
    requires FreshIds(loaded, ops, maxSize, maxRetries) && id in Run(loaded, ops, maxSize, maxRetries).h.accepted
    ensures var h := Run(loaded, ops, maxSize, maxRetries).h;
            && Count(h.attempts, id) - Count(h.aborted, id) <= Budget(h.accepted[id], maxRetries)
            && ((forall i :: 0 <= i < |ops| ==> ops[i] != Settle(ClassifierThrows)) ==>
                  Count(h.attempts, id) <= Budget(h.accepted[id], maxRetries))
  {
    RunKeepsInv(loaded, ops, maxSize, maxRetries);
    if forall i :: 0 <= i < |ops| ==> ops[i] != Settle(ClassifierThrows) {
      NothingAborted(loaded, ops, maxSize, maxRetries);
    }
    hide Run, Shape, Settled, AllTracked, DeadOk, OrderOk;
  }

  // ----- giving up neither early nor late -----

  /** A retryable failure with retries left changes one thing: the entry, in its place, has one more on its count. */
  lemma RetryKeepsItsPlace(w: World, maxSize: int, maxRetries: int)
    requires Inv(w, maxRetries) && |w.q.rest| > 0 && w.q.rest[0].retryCount + 1 < maxRetries
    ensures var q, q', head := w.q, Step(w, Settle(Retryable), maxSize, maxRetries).q, w.q.rest[0];
            && q'.deadLetters == q.deadLetters && q'.rest == q.rest[1..] && q'.replaying == q.replaying
            && |q'.pending| == |q.pending|
            && (forall i :: 0 <= i < |q.pending| ==>
                  q'.pending[i] == if q.pending[i].id == head.id then Entry(head.id, head.request, head.retryCount + 1) else q.pending[i])
            && (head.id !in w.h.cleared ==> exists i :: 0 <= i < |q.pending| && q.pending[i].id == head.id)
  {
    HeadOk(w, maxRetries);
    var head := w.q.rest[0];
    assert DistinctIds(w.q.pending);
    hide Inv, IdSet, SeqSet, Tracked;
    forall i | 0 <= i < |w.q.pending| && w.q.pending[i].id == head.id
      ensures w.q.pending[i] == head
    {
      InIdSet(w.q.pending);
      assert w.q.pending[i] in w.q.pending;
      var j :| 0 <= j < |w.q.pending| && w.q.pending[j] == head;
    }
  }

  /** The ids whose failure was classified as final. */
  ghost function RefusedIds(loaded: seq<Entry>, ops: seq<Op>, maxSize: int, maxRetries: int): set<Id> {
    if |ops| == 0 then {}
    else
      var front := ops[..|ops| - 1];
      RefusedIds(loaded, front, maxSize, maxRetries) + RefusedBy(Run(loaded, front, maxSize, maxRetries), ops[|ops| - 1])
  }

  ghost predicate DeadDue(h: History, dead: seq<Entry>, refused: set<Id>, maxRetries: int) {
    forall e :: e in dead && e.id !in refused ==>
                  && e.id in h.accepted && Tries(h, e.id) == Budget(h.accepted[e.id], maxRetries)
                  && e.retryCount == h.accepted[e.id].retryCount + Tries(h, e.id)
  }

  function RefusedBy(w: World, op: Op): set<Id> {
    if op == Settle(Refused) && |w.q.rest| > 0 then {w.q.rest[0].id} else {}
  }

  /** A try of `id` does not touch what is dead already. */
  lemma DueElsewhere(h: History, h': History, dead: seq<Entry>, refused: set<Id>, more: set<Id>, id: Id, maxRetries: int)
    requires DeadDue(h, dead, refused, maxRetries) && h'.accepted == h.accepted && id !in IdSet(dead)
    requires forall x :: x != id ==> Tries(h', x) == Tries(h, x)
    ensures DeadDue(h', dead, refused + more, maxRetries)
  {
    InIdSet(dead);
    hide IdSet, Tries;
  }

  lemma DueSnoc(h: History, dead: seq<Entry>, e: Entry, refused: set<Id>, maxRetries: int)
    requires DeadDue(h, dead, refused, maxRetries) && DeadDue(h, [e], refused, maxRetries)
    ensures DeadDue(h, dead + [e], refused, maxRetries)
  {
    assert e in [e];
  }

  lemma DeadDueSettle(w: World, outcome: Outcome, refused: set<Id>, maxSize: int, maxRetries: int)
    requires Inv(w, maxRetries) && |w.q.rest| > 0 && DeadDue(w.h, w.q.deadLetters, refused, maxRetries)
    ensures var w' := Step(w, Settle(outcome), maxSize, maxRetries);
            DeadDue(w'.h, w'.q.deadLetters, refused + RefusedBy(w, Settle(outcome)), maxRetries)
  {
    hide Inv, DeadDue, RemoveById, Bump, IdSet, SeqSet, Tracked;
    var w', e := Step(w, Settle(outcome), maxSize, maxRetries), w.q.rest[0];
    HeadOk(w, maxRetries);
    DueElsewhere(w.h, w'.h, w.q.deadLetters, refused, RefusedBy(w, Settle(outcome)), e.id, maxRetries);
    if outcome.Refused? {
      RefusedIsDue(w'.h, e, refused, maxRetries);
      DueSnoc(w'.h, w.q.deadLetters, e, refused + {e.id}, maxRetries);
    } else if outcome.Retryable? && e.retryCount + 1 >= maxRetries {
      LastTry(w.h, w'.h, e, refused, maxRetries);
      assert refused + {} == refused;
      DueSnoc(w'.h, w.q.deadLetters, Retried(e), refused, maxRetries);
    }
  }

  lemma RefusedIsDue(h: History, e: Entry, refused: set<Id>, maxRetries: int)
    ensures DeadDue(h, [e], refused + {e.id}, maxRetries)
  {
  }

  lemma DeadDueStep(w: World, op: Op, refused: set<Id>, maxSize: int, maxRetries: int)
    requires Inv(w, maxRetries) && (op.Enqueue? ==> op.id !in w.h.accepted)
    requires DeadDue(w.h, w.q.deadLetters, refused, maxRetries)
    ensures var w' := Step(w, op, maxSize, maxRetries);
            DeadDue(w'.h, w'.q.deadLetters, refused + RefusedBy(w, op), maxRetries)
  {
    if op.Settle? && |w.q.rest| > 0 {
      DeadDueSettle(w, op.outcome, refused, maxSize, maxRetries);
    } else {
      assert refused + RefusedBy(w, op) == refused;
      hide Shape, Settled, AllTracked, CountsOk, OrderOk, SettleHead;
    }
  }

  /** An entry whose count reaches the limit has used its budget up. */
  lemma LastTry(h: History, h': History, e: Entry, refused: set<Id>, maxRetries: int)
    requires Tracked(h, e, maxRetries) && e.retryCount + 1 >= maxRetries
    requires h'.accepted == h.accepted && Tries(h', e.id) == Tries(h, e.id) + 1
    ensures DeadDue(h', [Retried(e)], refused, maxRetries)
  {
  }

  /**
   * Nothing is dead-lettered early: in any run, a dead-lettered entry was refused for good, or its attempts that ended in a
   * verdict are all that `maxRetries` allows it, `max(1, maxRetries)` from retry count 0.
   */
  lemma {:induction false} DeadLettersAreDue(loaded: seq<Entry>, ops: seq<Op>, maxSize: int, maxRetries: int)
    requires FreshIds(loaded, ops, maxSize, maxRetries)
    ensures var w := Run(loaded, ops, maxSize, maxRetries);
            DeadDue(w.h, w.q.deadLetters, RefusedIds(loaded, ops, maxSize, maxRetries), maxRetries)
  {
    if |ops| > 0 {
      var front := ops[..|ops| - 1];
      FreshBefore(loaded, ops, maxSize, maxRetries);
      DeadLettersAreDue(loaded, front, maxSize, maxRetries);
      RunKeepsInv(loaded, front, maxSize, maxRetries);
      hide Inv, DeadDue, Step, RefusedBy;
      DeadDueStep(Run(loaded, front, maxSize, maxRetries), ops[|ops| - 1], RefusedIds(loaded, front, maxSize, maxRetries), maxSize, maxRetries);
    }
  }

  // ----- draining -----

  /** One replay with no other call in between, answered by `verdict`. */
  function SettleAll(w: World, verdict: Id -> Outcome, maxSize: int, maxRetries: int): World
    decreases |w.q.rest|
  {
    if |w.q.rest| == 0 then w
    else SettleAll(Step(w, Settle(verdict(w.q.rest[0].id)), maxSize, maxRetries), verdict, maxSize, maxRetries)
  }

  function Replay(w: World, verdict: Id -> Outcome, maxSize: int, maxRetries: int): World {
    Step(SettleAll(Step(w, StartReplay, maxSize, maxRetries), verdict, maxSize, maxRetries), FinishReplay, maxSize, maxRetries)
  }

  function Replays(w: World, verdicts: seq<Id -> Outcome>, maxSize: int, maxRetries: int): World {
    if |verdicts| == 0 then w
    else Replay(Replays(w, verdicts[..|verdicts| - 1], maxSize, maxRetries), verdicts[|verdicts| - 1], maxSize, maxRetries)
  }

  /** Pending entries already settled in this replay have been tried once more and have retries left. */
  ghost predicate AdvancedIn(pending: seq<Entry>, rest: seq<Entry>, k: int, maxRetries: int) {
    && (forall e :: e in pending ==> e.retryCount >= k)
    && (forall e :: e in pending && e !in rest ==> k + 1 <= e.retryCount < maxRetries)
  }

  ghost predicate Advanced(w: World, k: int, maxRetries: int) {
    AdvancedIn(w.q.pending, w.q.rest, k, maxRetries)
  }

  lemma RemovalAdvances(pending: seq<Entry>, rest: seq<Entry>, k: int, maxRetries: int)
    requires |rest| > 0 && AdvancedIn(pending, rest, k, maxRetries) && DistinctIds(pending)
    ensures AdvancedIn(RemoveById(pending, rest[0].id), rest[1..], k, maxRetries)
  {
    RemoveExact(pending, rest[0].id);
    hide RemoveById, IdSet;
    assert rest == [rest[0]] + rest[1..];
  }

  lemma InIdSet(s: seq<Entry>)
    ensures forall e :: e in s ==> e.id in IdSet(s)
  {
  }

  lemma BumpAdvances(pending: seq<Entry>, rest: seq<Entry>, k: int, maxRetries: int)
    requires |rest| > 0 && AdvancedIn(pending, rest, k, maxRetries) && DistinctIds(pending)
    requires rest[0].retryCount + 1 < maxRetries && (rest[0] in pending || rest[0].id !in IdSet(pending))
    ensures AdvancedIn(Bump(pending, rest[0].id), rest[1..], k, maxRetries)
  {
    hide Bump, IdSet, DistinctIds;
    var e, r := rest[0], Retried(rest[0]);
    var bumped := Bump(pending, e.id);
    BumpExact(pending, e);
    BumpIds(pending, e.id);
    InIdSet(bumped);
    forall x | x in bumped
      ensures x.retryCount >= k && (x !in rest[1..] ==> k + 1 <= x.retryCount < maxRetries)
    {
      if x != r && x in rest {
        assert x == rest[0] || x in rest[1..];
      }
    }
  }

  lemma PendingDistinct(w: World, maxRetries: int)
    requires Inv(w, maxRetries)
    ensures DistinctIds(w.q.pending)
  {
  }

  lemma SettleAdvances(w: World, outcome: Outcome, k: int, maxSize: int, maxRetries: int)
    requires Inv(w, maxRetries) && |w.q.rest| > 0 && !outcome.ClassifierThrows? && Advanced(w, k, maxRetries)
    ensures Advanced(Step(w, Settle(outcome), maxSize, maxRetries), k, maxRetries)
  {
    hide Inv, AdvancedIn, Tracked, RemoveById, Bump, DistinctIds;
    HeadOk(w, maxRetries);
    PendingDistinct(w, maxRetries);
    if outcome.Retryable? && w.q.rest[0].retryCount + 1 < maxRetries {
      BumpAdvances(w.q.pending, w.q.rest, k, maxRetries);
    } else {
      RemovalAdvances(w.q.pending, w.q.rest, k, maxRetries);
    }
  }

  lemma {:induction false} SettleAllAdvances(w: World, verdict: Id -> Outcome, k: int, maxSize: int, maxRetries: int)
    requires Inv(w, maxRetries) && Advanced(w, k, maxRetries) && forall id :: !verdict(id).ClassifierThrows?
    ensures var w' := SettleAll(w, verdict, maxSize, maxRetries);
            Inv(w', maxRetries) && Advanced(w', k, maxRetries) && |w'.q.rest| == 0
    decreases |w.q.rest|
  {
    hide Inv, Advanced;
    if |w.q.rest| > 0 {
      var outcome := verdict(w.q.rest[0].id);
      SettleAdvances(w, outcome, k, maxSize, maxRetries);
      SettleKeeps(w, outcome, maxSize, maxRetries);
      SettleAllAdvances(Step(w, Settle(outcome), maxSize, maxRetries), verdict, k, maxSize, maxRetries);
    }
  }

  lemma ReplayAdvances(w: World, verdict: Id -> Outcome, k: int, maxSize: int, maxRetries: int)
    requires Inv(w, maxRetries) && !w.q.replaying && forall id :: !verdict(id).ClassifierThrows?
    requires forall e :: e in w.q.pending ==> e.retryCount >= k
    ensures var w' := Replay(w, verdict, maxSize, maxRetries);
            && Inv(w', maxRetries) && !w'.q.replaying
            && forall e :: e in w'.q.pending ==> k + 1 <= e.retryCount < maxRetries
  {
    var started := Step(w, StartReplay, maxSize, maxRetries);
    StepKeepsInv(w, StartReplay, maxSize, maxRetries);
    hide Inv, SettleAll;
    assert Advanced(started, k, maxRetries);
    SettleAllAdvances(started, verdict, k, maxSize, maxRetries);
    var settled := SettleAll(started, verdict, maxSize, maxRetries);
    StepKeepsInv(settled, FinishReplay, maxSize, maxRetries);
  }

  lemma {:induction false} ReplaysAdvance(w: World, verdicts: seq<Id -> Outcome>, maxSize: int, maxRetries: int)
    requires Inv(w, maxRetries) && !w.q.replaying
    requires forall i, id :: 0 <= i < |verdicts| ==> !verdicts[i](id).ClassifierThrows?
    ensures var w' := Replays(w, verdicts, maxSize, maxRetries);
            && Inv(w', maxRetries) && !w'.q.replaying
            && (forall e :: e in w'.q.pending ==> e.retryCount >= |verdicts|)
            && (|verdicts| > 0 ==> forall e :: e in w'.q.pending ==> e.retryCount < maxRetries)
  {
    hide Inv, Replay;
    if |verdicts| > 0 {
      var n := |verdicts| - 1;
      ReplaysAdvance(w, verdicts[..n], maxSize, maxRetries);
      ReplayAdvances(Replays(w, verdicts[..n], maxSize, maxRetries), verdicts[n], n, maxSize, maxRetries);
    }
  }

  lemma HasElement(s: seq<Entry>)
    requires |s| > 0
    ensures exists e :: e in s
  {
    assert s[0] in s;
  }

  /** `max(1, maxRetries)` full replays with no new entry empty the queue, whatever the verdicts. */
  lemma ReplaysDrain(w: World, verdicts: seq<Id -> Outcome>, maxSize: int, maxRetries: int)
    requires Inv(w, maxRetries) && !w.q.replaying
    requires |verdicts| >= 1 && |verdicts| >= maxRetries
    requires forall i, id :: 0 <= i < |verdicts| ==> !verdicts[i](id).ClassifierThrows?
    ensures Replays(w, verdicts, maxSize, maxRetries).q.pending == []
  {
    ReplaysAdvance(w, verdicts, maxSize, maxRetries);
    var pending := Replays(w, verdicts, maxSize, maxRetries).q.pending;
    if |pending| > 0 {
      HasElement(pending);
    }
  }
}
