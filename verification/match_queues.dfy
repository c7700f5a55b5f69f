/**
 * The three FIFO waiting queues of the matching coordinator, the choice of
 * queues a filter string selects, and a specification of the head-first scan
 * that a match attempt performs over them.
 */
module MatchQueues {
  import opened Wrappers

  /** Opaque user identity (a GUID in the system). */
  type UserId = nat

  /** The three queue buckets: unfiltered, "male" and "female". */
  datatype QueueKind = All | Male | Female

  /** Snapshot of the contents of the three queues, head first. */
  datatype QueueSet = QueueSet(all: seq<UserId>, male: seq<UserId>, female: seq<UserId>)
  {
    function Get(k: QueueKind): seq<UserId>
    {
      match k
      case All => all
      case Male => male
      case Female => female
    }

    function Set(k: QueueKind, q: seq<UserId>): QueueSet
    {
      match k
      case All => this.(all := q)
      case Male => this.(male := q)
      case Female => this.(female := q)
    }

    /** Appends `u` at the tail of queue `k`. */
    function Push(k: QueueKind, u: UserId): QueueSet
    {
      Set(k, Get(k) + [u])
    }

    /** True when `u` has at least one entry in some queue. */
    predicate Holds(u: UserId)
    {
      u in all || u in male || u in female
    }
  }

  /** The queue a caller who finds no partner joins. */
  function GetPrimaryQueue(filter: string): (k: QueueKind)
    ensures filter == "male" <==> k == Male
    ensures filter == "female" <==> k == Female
  {
    if filter == "male" then Male
    else if filter == "female" then Female
    else All
  }

  /** The queues a match attempt scans, in scan order. */
  function GetQueues(filter: string): (order: seq<QueueKind>)
    ensures |order| > 0 && order[0] == GetPrimaryQueue(filter)
    ensures All in order
    ensures Distinct(order)
    ensures filter == "male" ==> order == [Male, All]
    ensures filter == "female" ==> order == [Female, All]
    ensures filter != "male" && filter != "female" ==> order == [All, Male, Female]
  {
    if filter == "male" then [Male, All]
    else if filter == "female" then [Female, All]
    else [All, Male, Female]
  }

  predicate Distinct(order: seq<QueueKind>)
  {
    forall i, j :: 0 <= i < j < |order| ==> order[i] != order[j]
  }

  /**
   * A dequeued entry that is discarded rather than matched: the caller's own
   * entry, or a user who is no longer in the waiting set.
   */
  predicate Skippable(x: UserId, waiting: set<UserId>, user: UserId)
  {
    x == user || x !in waiting
  }

  /** Outcome of draining one queue: the partner found, and how many entries were dequeued. */
  datatype Scan = Scan(partner: Option<UserId>, consumed: nat)

  /**
   * Dequeues head-first from `q` until a live candidate is found. Every
   * dequeued entry before the partner is skippable; with no partner the
   * whole queue is consumed and every entry was skippable.
   */
  function ScanQueue(q: seq<UserId>, waiting: set<UserId>, user: UserId): (r: Scan)
    ensures r.consumed <= |q|
    ensures r.partner.None? ==>
      r.consumed == |q| && forall j :: 0 <= j < |q| ==> Skippable(q[j], waiting, user)
    ensures r.partner.Some? ==>
      0 < r.consumed && q[r.consumed - 1] == r.partner.value &&
      !Skippable(r.partner.value, waiting, user) &&
      forall j :: 0 <= j < r.consumed - 1 ==> Skippable(q[j], waiting, user)
    decreases |q|
  {
    if q == [] then Scan(None, 0)
    else if Skippable(q[0], waiting, user) then
      var s := ScanQueue(q[1..], waiting, user);
      Scan(s.partner, s.consumed + 1)
    else Scan(Some(q[0]), 1)
  }

  /** Outcome of a whole search: the partner found and the queues left behind. */
  datatype SearchResult = SearchResult(partner: Option<UserId>, queues: QueueSet)

  /**
   * Scans the queues of `order` one after the other, draining each from its
   * head, and stops at the first live candidate.
   */
  function Search(order: seq<QueueKind>, qs: QueueSet, waiting: set<UserId>, user: UserId): (r: SearchResult)
    ensures r.partner.Some? ==> r.partner.value != user && r.partner.value in waiting
    decreases |order|
  {
    if order == [] then SearchResult(None, qs)
    else
      var q := qs.Get(order[0]);
      var s := ScanQueue(q, waiting, user);
      if s.partner.Some? then SearchResult(s.partner, qs.Set(order[0], q[s.consumed..]))
      else Search(order[1..], qs.Set(order[0], []), waiting, user)
  }

  /**
   * A search touches only the queues it scans; when it finds no partner it
   * has drained every one of them.
   */
  lemma {:induction false} SearchFrame(order: seq<QueueKind>, qs: QueueSet, waiting: set<UserId>, user: UserId)
    ensures var r := Search(order, qs, waiting, user);
      forall k :: k !in order ==> r.queues.Get(k) == qs.Get(k)
    ensures var r := Search(order, qs, waiting, user);
      r.partner.None? ==> forall k :: k in order ==> r.queues.Get(k) == []
    decreases |order|
  {
    if order != [] {
      var q := qs.Get(order[0]);
      if ScanQueue(q, waiting, user).partner.None? {
        SearchFrame(order[1..], qs.Set(order[0], []), waiting, user);
      }
    }
  }

  /** True when `q` holds an entry that a scan would match. */
  predicate HasLive(q: seq<UserId>, waiting: set<UserId>, user: UserId)
  {
    exists j :: 0 <= j < |q| && !Skippable(q[j], waiting, user)
  }

  /** Index in `order` of the first queue holding a live entry (|order| when none does). */
  function FirstLive(order: seq<QueueKind>, qs: QueueSet, waiting: set<UserId>, user: UserId): (i: nat)
    ensures i <= |order|
    ensures forall j :: 0 <= j < i ==> !HasLive(qs.Get(order[j]), waiting, user)
    ensures i < |order| ==> HasLive(qs.Get(order[i]), waiting, user)
    decreases |order|
  {
    if order == [] then 0
    else if HasLive(qs.Get(order[0]), waiting, user) then 0
    else 1 + FirstLive(order[1..], qs, waiting, user)
  }

  /** A scan finds a partner exactly when the queue holds a live entry. */
  lemma ScanFindsLive(q: seq<UserId>, waiting: set<UserId>, user: UserId)
    ensures ScanQueue(q, waiting, user).partner.Some? <==> HasLive(q, waiting, user)
  {
  }

  /**
   * Reference characterisation of Search for a scan order without repeats:
   * the partner is the head-most live entry of the first queue, in scan
   * order, that holds one; there is none exactly when no scanned queue holds
   * a live entry.
   */
  lemma {:induction false} SearchIsFirstLive(order: seq<QueueKind>, qs: QueueSet, waiting: set<UserId>, user: UserId)
    requires Distinct(order)
    ensures var i := FirstLive(order, qs, waiting, user);
      Search(order, qs, waiting, user).partner ==
        if i < |order| then ScanQueue(qs.Get(order[i]), waiting, user).partner else None
    decreases |order|
  {
    if order != [] {
      var k := order[0];
      ScanFindsLive(qs.Get(k), waiting, user);
      if !HasLive(qs.Get(k), waiting, user) {
        var qs' := qs.Set(k, []);
        DistinctTail(order);
        SearchIsFirstLive(order[1..], qs', waiting, user);
        forall j | 0 <= j < |order[1..]| ensures qs'.Get(order[1..][j]) == qs.Get(order[1..][j]) {
          assert order[1..][j] == order[j + 1] != k;
        }
        FirstLiveFrame(order[1..], qs, qs', waiting, user);
      }
    }
  }

  /** Dropping the first element of a repeat-free order keeps it repeat-free. */
  lemma DistinctTail(order: seq<QueueKind>)
    requires Distinct(order) && order != []
    ensures Distinct(order[1..]) && order[0] !in order[1..]
  {
    forall i, j | 0 <= i < j < |order[1..]| ensures order[1..][i] != order[1..][j] {
      assert order[1..][i] == order[i + 1] && order[1..][j] == order[j + 1];
    }
  }

  /**
   * The queues a successful search leaves behind, for a scan order without
   * repeats: every queue scanned before the partner's is drained, the
   * partner's queue loses exactly the entries up to and including the
   * partner, and every other queue is unchanged (nothing is enqueued).
   */
  lemma {:induction false} SearchLeavesOnMatch(order: seq<QueueKind>, qs: QueueSet, waiting: set<UserId>, user: UserId)
    requires Distinct(order)
    requires FirstLive(order, qs, waiting, user) < |order|
    ensures var i := FirstLive(order, qs, waiting, user);
      var q := qs.Get(order[i]);
      var r := Search(order, qs, waiting, user);
      (forall j :: 0 <= j < i ==> r.queues.Get(order[j]) == []) &&
      r.queues.Get(order[i]) == q[ScanQueue(q, waiting, user).consumed..] &&
      (forall k :: k !in order[..i + 1] ==> r.queues.Get(k) == qs.Get(k))
    decreases |order|
  {
    var k := order[0];
    ScanFindsLive(qs.Get(k), waiting, user);
    if HasLive(qs.Get(k), waiting, user) {
      assert order[..1] == [k];
    } else {
      var qs' := qs.Set(k, []);
      DistinctTail(order);
      forall j | 0 <= j < |order[1..]| ensures qs'.Get(order[1..][j]) == qs.Get(order[1..][j]) {
        assert order[1..][j] == order[j + 1] != k;
      }
      FirstLiveFrame(order[1..], qs, qs', waiting, user);
      SearchLeavesOnMatchStep(order, qs, waiting, user);
    }
  }

  /** The inductive step of SearchLeavesOnMatch: the first queue holds no live entry. */
  lemma {:induction false} SearchLeavesOnMatchStep(order: seq<QueueKind>, qs: QueueSet, waiting: set<UserId>, user: UserId)
    requires Distinct(order) && order != [] && order[0] !in order[1..] && Distinct(order[1..])
    requires !HasLive(qs.Get(order[0]), waiting, user)
    requires ScanQueue(qs.Get(order[0]), waiting, user).partner.None?
    requires FirstLive(order[1..], qs.Set(order[0], []), waiting, user) == FirstLive(order[1..], qs, waiting, user)
    requires FirstLive(order, qs, waiting, user) < |order|
    ensures var i := FirstLive(order, qs, waiting, user);
      var q := qs.Get(order[i]);
      var r := Search(order, qs, waiting, user);
      (forall j :: 0 <= j < i ==> r.queues.Get(order[j]) == []) &&
      r.queues.Get(order[i]) == q[ScanQueue(q, waiting, user).consumed..] &&
      (forall k :: k !in order[..i + 1] ==> r.queues.Get(k) == qs.Get(k))
    decreases |order|, 0
  {
    var k, rest := order[0], order[1..];
    var qs' := qs.Set(k, []);
    var i := FirstLive(order, qs, waiting, user);
    assert i == 1 + FirstLive(rest, qs, waiting, user);
    SearchLeavesOnMatch(rest, qs', waiting, user);
    var rq := Search(rest, qs', waiting, user).queues;
    assert Search(order, qs, waiting, user).queues == rq;
    assert rest[i - 1] == order[i] != k;
    assert k !in rest[..i];
    ShiftDrained(order, rq, i);
    ShiftUntouched(order, qs, rq, i);
  }

  /** Drained queues of the tail search, together with the emptied head queue. */
  lemma ShiftDrained(order: seq<QueueKind>, rq: QueueSet, i: nat)
    requires 0 < i < |order| && rq.Get(order[0]) == []
    requires forall j :: 0 <= j < i - 1 ==> rq.Get(order[1..][j]) == []
    ensures forall j :: 0 <= j < i ==> rq.Get(order[j]) == []
  {
    forall j | 0 <= j < i ensures rq.Get(order[j]) == [] {
      if j > 0 { assert order[j] == order[1..][j - 1]; }
    }
  }

  /** Untouched queues of the tail search, seen from the whole order. */
  lemma ShiftUntouched(order: seq<QueueKind>, qs: QueueSet, rq: QueueSet, i: nat)
    requires 0 < i < |order|
    requires forall k :: k !in order[1..][..i] ==> rq.Get(k) == qs.Set(order[0], []).Get(k)
    ensures forall k :: k !in order[..i + 1] ==> rq.Get(k) == qs.Get(k)
  {
    assert order[..i + 1] == [order[0]] + order[1..][..i];
  }

  /**
   * A search finds a partner whenever a scanned queue holds an entry of a
   * waiting user other than the caller.
   */
  lemma SearchFindsWaiting(order: seq<QueueKind>, qs: QueueSet, waiting: set<UserId>, user: UserId, k: QueueKind, w: UserId)
    requires Distinct(order) && k in order
    requires w in qs.Get(k) && w in waiting && w != user
    ensures Search(order, qs, waiting, user).partner.Some?
  {
    var j :| 0 <= j < |order| && order[j] == k;
    var q := qs.Get(k);
    var n :| 0 <= n < |q| && q[n] == w;
    assert !Skippable(q[n], waiting, user);
    assert HasLive(qs.Get(order[j]), waiting, user);
    var i := FirstLive(order, qs, waiting, user);
    SearchIsFirstLive(order, qs, waiting, user);
    ScanFindsLive(qs.Get(order[i]), waiting, user);
  }

  /**
   * An unfiltered search scans every queue, so it pairs the caller whenever
   * any other waiting user holds a queue entry.
   */
  lemma UnfilteredSearchPairs(filter: string, qs: QueueSet, waiting: set<UserId>, user: UserId, w: UserId)
    requires filter != "male" && filter != "female"
    requires w in waiting && w != user && qs.Holds(w)
    ensures Search(GetQueues(filter), qs, waiting, user).partner.Some?
  {
    var k := if w in qs.all then All else if w in qs.male then Male else Female;
    SearchFindsWaiting(GetQueues(filter), qs, waiting, user, k, w);
  }

  /**
   * When every waiting user holds a queue entry, a search by `user` (who
   * joins the waiting set first) pairs it whenever a scanned queue holds
   * another waiting user, and an unfiltered search pairs it whenever
   * anyone else is waiting at all.
   */
  lemma WaitingPartnerFound(filter: string, qs: QueueSet, waiting: set<UserId>, user: UserId)
    requires forall w :: w in waiting ==> qs.Holds(w)
    ensures (exists k, w :: k in GetQueues(filter) && w in qs.Get(k) && w in waiting && w != user) ==>
      Search(GetQueues(filter), qs, waiting + {user}, user).partner.Some?
    ensures (filter != "male" && filter != "female" && exists w :: w in waiting && w != user) ==>
      Search(GetQueues(filter), qs, waiting + {user}, user).partner.Some?
  {
    if k, w :| k in GetQueues(filter) && w in qs.Get(k) && w in waiting && w != user {
      SearchFindsWaiting(GetQueues(filter), qs, waiting + {user}, user, k, w);
    }
    if filter != "male" && filter != "female" && exists w :: w in waiting && w != user {
      var w :| w in waiting && w != user;
      UnfilteredSearchPairs(filter, qs, waiting + {user}, user, w);
    }
  }

  /**
   * A match attempt keeps every waiting user holding a queue entry: on a
   * match, everyone still waiting apart from the pair keeps an entry; with
   * no match, everyone waiting, the caller included, holds one once the
   * caller joins its primary queue.
   */
  lemma SearchKeepsInvariant(filter: string, qs: QueueSet, waiting: set<UserId>, user: UserId)
    requires forall w :: w in waiting ==> qs.Holds(w)
    ensures var s := Search(GetQueues(filter), qs, waiting + {user}, user);
      match s.partner
      case Some(p) => forall w :: w in waiting && w != user && w != p ==> s.queues.Holds(w)
      case None => forall w :: w in waiting + {user} ==> s.queues.Push(GetPrimaryQueue(filter), user).Holds(w)
  {
    var s := Search(GetQueues(filter), qs, waiting + {user}, user);
    WaitingKeepEntries(GetQueues(filter), qs, waiting + {user}, user);
    if s.partner.None? {
      forall w | w in waiting + {user} ensures s.queues.Push(GetPrimaryQueue(filter), user).Holds(w) {
        PushHolds(s.queues, GetPrimaryQueue(filter), user, w);
      }
    }
  }

  /** FirstLive depends only on the queues named in `order`. */
  lemma FirstLiveFrame(order: seq<QueueKind>, qs: QueueSet, qs': QueueSet, waiting: set<UserId>, user: UserId)
    requires forall j :: 0 <= j < |order| ==> qs'.Get(order[j]) == qs.Get(order[j])
    ensures FirstLive(order, qs', waiting, user) == FirstLive(order, qs, waiting, user)
    decreases |order|
  {
  }

  /**
   * Draining a stale head before searching changes nothing: the search
   * from the shortened queue has the same partner and leaves the same queues.
   */
  lemma SearchSkipHead(order: seq<QueueKind>, qs: QueueSet, waiting: set<UserId>, user: UserId)
    requires order != [] && qs.Get(order[0]) != []
    requires Skippable(qs.Get(order[0])[0], waiting, user)
    ensures Search(order, qs.Set(order[0], qs.Get(order[0])[1..]), waiting, user) == Search(order, qs, waiting, user)
  {
  }

  /** Searching an order whose first queue is empty is searching the rest of it. */
  lemma SearchSkipEmpty(order: seq<QueueKind>, qs: QueueSet, waiting: set<UserId>, user: UserId)
    requires order != [] && qs.Get(order[0]) == []
    ensures Search(order, qs, waiting, user) == Search(order[1..], qs, waiting, user)
  {
  }

  /**
   * A search discards no entry of a user who is still waiting, other than
   * the caller's own and the matched partner's: such a user keeps a queue
   * entry afterwards.
   */
  lemma {:induction false} SearchKeepsWaiting(order: seq<QueueKind>, qs: QueueSet, waiting: set<UserId>, user: UserId, w: UserId)
    requires w in waiting && w != user && qs.Holds(w)
    requires Search(order, qs, waiting, user).partner != Some(w)
    ensures Search(order, qs, waiting, user).queues.Holds(w)
    decreases |order|
  {
    if order != [] {
      var k, q := order[0], qs.Get(order[0]);
      var s := ScanQueue(q, waiting, user);
      if s.partner.Some? {
        if w in q {
          var j :| 0 <= j < |q| && q[j] == w;
          assert !Skippable(q[j], waiting, user);
          assert j >= s.consumed;
          assert q[s.consumed..][j - s.consumed] == w;
        }
        KeepsOthers(qs, k, q[s.consumed..], w);
      } else {
        assert w !in q;
        KeepsOthers(qs, k, [], w);
        SearchKeepsWaiting(order[1..], qs.Set(k, []), waiting, user, w);
      }
    }
  }

  /** SearchKeepsWaiting for every waiting user at once. */
  lemma WaitingKeepEntries(order: seq<QueueKind>, qs: QueueSet, waiting: set<UserId>, user: UserId)
    ensures var s := Search(order, qs, waiting, user);
      forall w :: w in waiting && w != user && s.partner != Some(w) && qs.Holds(w) ==> s.queues.Holds(w)
  {
    forall w | w in waiting && w != user && Search(order, qs, waiting, user).partner != Some(w) && qs.Holds(w)
      ensures Search(order, qs, waiting, user).queues.Holds(w)
    {
      SearchKeepsWaiting(order, qs, waiting, user, w);
    }
  }

  /** Replacing queue `k` keeps every entry in the other queues and in the new contents of `k`. */
  lemma KeepsOthers(qs: QueueSet, k: QueueKind, q: seq<UserId>, w: UserId)
    requires qs.Holds(w) && (w in qs.Get(k) ==> w in q)
    ensures qs.Set(k, q).Holds(w)
  {
  }

  /** Appending to a queue keeps every entry and adds the new one. */
  lemma PushHolds(qs: QueueSet, k: QueueKind, u: UserId, w: UserId)
    requires qs.Holds(w) || w == u
    ensures qs.Push(k, u).Holds(w)
  {
  }
}
