/**
 * The in-memory presence and matching coordinator: who is reachable on which
 * connection, who is waiting for a random partner in which queue, and which
 * connect-by-code requests are outstanding. Each public method is one atomic
 * step; the clock, the user directory and session persistence are parameters.
 */
module Matching {
  import opened Wrappers
  import opened MatchQueues

  /** Opaque identifier of one live transport connection. */
  type ConnectionId = string

  /** An outstanding connect-by-code request, keyed by its requester. */
  datatype PendingRequest = PendingRequest(target: UserId, createdAt: int)

  datatype SessionKind = Random | Code

  /** The session record handed to persistence: its id, the pair and the kind. */
  datatype SessionDescriptor = SessionDescriptor(id: nat, user1: UserId, user2: UserId, kind: SessionKind)

  datatype RequestError = TargetNotFound | TargetOffline | RequestAlreadyPending

  /** Seconds during which a request can still be accepted. */
  const RequestTimeoutSeconds: int := 60

  /** A request is expired once strictly more than the timeout has elapsed. */
  predicate Expired(p: PendingRequest, now: int)
  {
    now - p.createdAt > RequestTimeoutSeconds
  }

  /** True when the request is sent by `u` or addressed to `u`. */
  predicate Involves(requester: UserId, p: PendingRequest, u: UserId)
  {
    requester == u || p.target == u
  }

  /** The pending table with every request naming `u` removed. */
  function WithoutUser(table: map<UserId, PendingRequest>, u: UserId): (r: map<UserId, PendingRequest>)
    ensures forall k :: k in r ==> k in table && r[k] == table[k]
    ensures forall k :: k in r ==> !Involves(k, r[k], u)
    ensures forall k :: k in table && !Involves(k, table[k], u) ==> k in r
  {
    map k | k in table && !Involves(k, table[k], u) :: table[k]
  }

  class MatchingService
  {
    /** User -> current connection (last writer wins). */
    var connections: map<UserId, ConnectionId>
    /** Requester -> its outstanding request. */
    var pending: map<UserId, PendingRequest>
    var queueAll: seq<UserId>
    var queueMale: seq<UserId>
    var queueFemale: seq<UserId>
    /** Users still genuinely searching; queue entries of others are stale. */
    var waiting: set<UserId>
    /** Source of fresh session ids. */
    var nextSessionId: nat

    function Queues(): QueueSet
      reads this
    {
      QueueSet(queueAll, queueMale, queueFemale)
    }

    /**
     * Every waiting user still has an entry in some queue, so lazy purging
     * never strands a searcher; no request is addressed to its own sender.
     */
    ghost predicate Valid()
      reads this
    {
      (forall w :: w in waiting ==> Queues().Holds(w)) &&
      (forall k :: k in pending ==> pending[k].target != k)
    }

    constructor ()
      ensures Valid()
      ensures connections == map[] && pending == map[] && waiting == {}
      ensures Queues() == QueueSet([], [], []) && nextSessionId == 0
    {
      connections, pending := map[], map[];
      queueAll, queueMale, queueFemale := [], [], [];
      waiting, nextSessionId := {}, 0;
    }

    /** Removes the head of queue `k`, if any. */
    method Dequeue(k: QueueKind) returns (head: Option<UserId>)
      modifies this`queueAll, this`queueMale, this`queueFemale
      ensures var q := old(Queues()).Get(k);
        if q == [] then head == None && Queues() == old(Queues())
        else head == Some(q[0]) && Queues() == old(Queues()).Set(k, q[1..])
    {
      match k
      case All =>
        if queueAll == [] { head := None; } else { head := Some(queueAll[0]); queueAll := queueAll[1..]; }
      case Male =>
        if queueMale == [] { head := None; } else { head := Some(queueMale[0]); queueMale := queueMale[1..]; }
      case Female =>
        if queueFemale == [] { head := None; } else { head := Some(queueFemale[0]); queueFemale := queueFemale[1..]; }
    }

    /** Appends `u` at the tail of queue `k`. */
    method Enqueue(k: QueueKind, u: UserId)
      modifies this`queueAll, this`queueMale, this`queueFemale
      ensures Queues() == old(Queues()).Push(k, u)
    {
      match k
      case All => queueAll := queueAll + [u];
      case Male => queueMale := queueMale + [u];
      case Female => queueFemale := queueFemale + [u];
    }

    /**
     * Registers the caller's connection, marks it waiting, and scans the
     * queues selected by `filter` head-first. The first live candidate is
     * paired with the caller (both leave the waiting set); otherwise every
     * scanned queue is drained and the caller joins its primary queue.
     */
    method TryMatch(user: UserId, filter: string, conn: ConnectionId) returns (r: Option<SessionDescriptor>)
      requires Valid()
      modifies this
      ensures Valid()
      ensures connections == old(connections)[user := conn] && pending == old(pending)
      ensures var s := Search(GetQueues(filter), old(Queues()), old(waiting) + {user}, user);
        match s.partner
        case Some(p) =>
          r == Some(SessionDescriptor(old(nextSessionId), p, user, Random)) &&
          waiting == old(waiting) - {user, p} &&
          Queues() == s.queues && nextSessionId == old(nextSessionId) + 1
        case None =>
          r == None && waiting == old(waiting) + {user} &&
          Queues() == s.queues.Push(GetPrimaryQueue(filter), user) &&
          nextSessionId == old(nextSessionId)
      ensures r.Some? ==> r.value.user1 != user && r.value.user1 in old(waiting) &&
                          r.value.user1 !in waiting && user !in waiting
      ensures r.None? ==> user in waiting && GetConnectionId(user) == Some(conn)
      ensures (exists k, w :: k in GetQueues(filter) && w in old(Queues()).Get(k) &&
                              w in old(waiting) && w != user) ==> r.Some?
      ensures (filter != "male" && filter != "female" &&
               exists w :: w in old(waiting) && w != user) ==> r.Some?
    {
      connections := connections[user := conn];
      waiting := waiting + {user};
      WaitingPartnerFound(filter, old(Queues()), old(waiting), user);
      SearchKeepsInvariant(filter, old(Queues()), old(waiting), user);
      var partner := Drain(GetQueues(filter), user);
      if partner.Some? {
        var p := partner.value;
        waiting := waiting - {user} - {p};
        r := Some(SessionDescriptor(nextSessionId, p, user, Random));
        nextSessionId := nextSessionId + 1;
      } else {
        Enqueue(GetPrimaryQueue(filter), user);
        r := None;
      }
    }

    /**
     * The scan loop of a match attempt: for each queue of `order` in turn,
     * dequeue head-first, discard the caller's own and non-waiting entries,
     * and stop at the first live candidate.
     */
    method Drain(order: seq<QueueKind>, user: UserId) returns (partner: Option<UserId>)
      modifies this`queueAll, this`queueMale, this`queueFemale
      ensures var s := Search(order, old(Queues()), waiting, user);
        partner == s.partner && Queues() == s.queues
    {
      ghost var goal := Search(order, Queues(), waiting, user);
      var i := 0;
      while i < |order|
        invariant 0 <= i <= |order|
        invariant Search(order[i..], Queues(), waiting, user) == goal
      {
        var k := order[i];
        while true
          invariant Search(order[i..], Queues(), waiting, user) == goal
          decreases |Queues().Get(k)|
        {
          ghost var before := Queues();
          var head := Dequeue(k);
          if head.None? {
            SearchSkipEmpty(order[i..], Queues(), waiting, user);
            assert order[i..][1..] == order[i + 1..];
            break;
          }
          var p := head.value;
          if p == user || p !in waiting {
            SearchSkipHead(order[i..], before, waiting, user);
            continue;
          }
          return Some(p);
        }
        i := i + 1;
      }
      partner := None;
    }

    /** Cancels a search: the user stops waiting and loses its connection; queue entries stay. */
    method RemoveFromQueue(user: UserId)
      requires Valid()
      modifies this`waiting, this`connections
      ensures Valid()
      ensures waiting == old(waiting) - {user}
      ensures connections == old(connections) - {user}
      ensures GetConnectionId(user) == None
    {
      waiting := waiting - {user};
      connections := connections - {user};
    }

    /** The user's current connection, if any. */
    function GetConnectionId(user: UserId): (r: Option<ConnectionId>)
      reads this
      ensures r.Some? <==> user in connections
      ensures r.Some? ==> r.value == connections[user]
    {
      if user in connections then Some(connections[user]) else None
    }

    /** Records the user's connection, replacing any previous one. */
    method SetUserOnline(user: UserId, conn: ConnectionId)
      requires Valid()
      modifies this`connections
      ensures Valid()
      ensures connections == old(connections)[user := conn]
      ensures GetConnectionId(user) == Some(conn)
      ensures forall u :: u != user ==> GetConnectionId(u) == old(GetConnectionId(u))
    {
      connections := connections[user := conn];
    }

    /**
     * Purges the user from every structure: the waiting set, the connection
     * map, and every request it sent or received. Queue entries stay and
     * are discarded when dequeued.
     */
    method SetUserOffline(user: UserId)
      requires Valid()
      modifies this`waiting, this`connections, this`pending
      ensures Valid()
      ensures waiting == old(waiting) - {user}
      ensures connections == old(connections) - {user}
      ensures GetConnectionId(user) == None
      ensures pending == WithoutUser(old(pending), user)
      ensures forall k :: k in pending ==> k != user && pending[k].target != user
    {
      waiting := waiting - {user};
      connections := connections - {user};
      RemovePendingRequestsForUser(user);
    }

    /**
     * Walks a snapshot of the pending table and removes every request
     * whose requester or target is `user`.
     */
    method RemovePendingRequestsForUser(user: UserId)
      requires Valid()
      modifies this`pending
      ensures Valid()
      ensures pending == WithoutUser(old(pending), user)
    {
      var snapshot := pending;
      var todo := snapshot.Keys;
      while todo != {}
        invariant todo <= snapshot.Keys
        invariant pending == map k | k in snapshot && (k in todo || !Involves(k, snapshot[k], user)) :: snapshot[k]
        decreases todo
      {
        var k :| k in todo;
        if Involves(k, snapshot[k], user) {
          pending := pending - {k};
        }
        todo := todo - {k};
      }
    }

    /**
     * Sends a request to the user the directory returned for a code
     * (`found`, None when the code is unknown or its owner banned). Fails,
     * in this order, on an unknown target or the requester itself, on an
     * offline target, and on a request the requester already has pending.
     */
    method RequestConnectionByCode(requester: UserId, found: Option<UserId>, now: int)
      returns (r: Result<UserId, RequestError>)
      requires Valid()
      modifies this`pending
      ensures Valid()
      ensures (found.None? || found.value == requester) ==> r == Failure(TargetNotFound)
      ensures found.Some? && found.value != requester && found.value !in connections ==>
        r == Failure(TargetOffline)
      ensures (found.Some? && found.value != requester && found.value in connections &&
               requester in old(pending)) ==> r == Failure(RequestAlreadyPending)
      ensures r.Success? <==>
        found.Some? && found.value != requester && found.value in connections &&
        requester !in old(pending)
      ensures r.Failure? ==> pending == old(pending)
      ensures r.Success? ==>
        found == Some(r.value) && r.value != requester && r.value in connections &&
        requester !in old(pending) &&
        pending == old(pending)[requester := PendingRequest(r.value, now)]
    {
      if found.None? || found.value == requester {
        return Failure(TargetNotFound);
      }
      var target := found.value;
      if target !in connections {
        return Failure(TargetOffline);
      }
      if requester in pending {
        return Failure(RequestAlreadyPending);
      }
      pending := pending[requester := PendingRequest(target, now)];
      r := Success(target);
    }

    /**
     * Takes the request of `requester` out of the table, whatever it holds,
     * then opens a code session only if it was addressed to `target` and
     * is not expired.
     */
    method AcceptConnectionRequest(target: UserId, requester: UserId, now: int)
      returns (r: Option<SessionDescriptor>)
      requires Valid()
      modifies this`pending, this`nextSessionId
      ensures Valid()
      ensures pending == old(pending) - {requester}
      ensures r.Some? <==>
        requester in old(pending) && old(pending)[requester].target == target &&
        !Expired(old(pending)[requester], now)
      ensures r.Some? ==>
        r.value == SessionDescriptor(old(nextSessionId), requester, target, Code) &&
        nextSessionId == old(nextSessionId) + 1
      ensures r.Some? ==> r.value.user1 != r.value.user2
      ensures r.None? ==> nextSessionId == old(nextSessionId)
    {
      if requester !in pending {
        return None;
      }
      var p := pending[requester];
      pending := pending - {requester};
      if p.target != target {
        return None;
      }
      if Expired(p, now) {
        return None;
      }
      r := Some(SessionDescriptor(nextSessionId, requester, target, Code));
      nextSessionId := nextSessionId + 1;
    }

    /** Removes the request of `requester` only if it is addressed to `target`; no expiry check. */
    method DeclineConnectionRequest(target: UserId, requester: UserId) returns (r: bool)
      requires Valid()
      modifies this`pending
      ensures Valid()
      ensures r <==> requester in old(pending) && old(pending)[requester].target == target
      ensures pending == if r then old(pending) - {requester} else old(pending)
    {
      if requester !in pending || pending[requester].target != target {
        return false;
      }
      pending := pending - {requester};
      r := true;
    }

    /** Removes the request of `requester`, whatever its target; reports whether there was one. */
    method CancelConnectionRequest(requester: UserId) returns (r: bool)
      requires Valid()
      modifies this`pending
      ensures Valid()
      ensures r <==> requester in old(pending)
      ensures pending == old(pending) - {requester}
    {
      r := requester in pending;
      pending := pending - {requester};
    }
  }
}
