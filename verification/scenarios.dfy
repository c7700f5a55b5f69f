/**
 * Concrete runs of the coordinator, each proved from the operations'
 * contracts alone: what a caller can rely on.
 */
module Scenarios {
  import opened Wrappers
  import opened MatchQueues
  import opened Matching

  /**
   * A "male" searcher waits in the male queue; an unfiltered searcher scans
   * the unfiltered queue (empty), then the male queue, and is paired with it.
   */
  method AnyFilterFindsMaleQueue() returns (first: Option<SessionDescriptor>, second: Option<SessionDescriptor>)
    ensures first == None
    ensures second == Some(SessionDescriptor(0, 1, 2, Random))
  {
    var svc := new MatchingService();
    var empty := QueueSet([], [], []);
    assert Search([All], empty, {1}, 1) == SearchResult(None, empty);
    first := svc.TryMatch(1, "male", "c1");
    assert svc.Queues() == QueueSet([], [1], []);
    var queued := svc.Queues();
    assert ScanQueue([1], {1, 2}, 2) == Scan(Some(1), 1);
    assert Search([Male, Female], queued, {1, 2}, 2).partner == Some(1);
    second := svc.TryMatch(2, "", "c2");
  }

  /**
   * A searcher who cancels leaves a stale entry; a later searcher discards
   * it instead of matching it, and waits alone in the unfiltered queue.
   */
  method CancelledEntryIsSkipped() returns (r: Option<SessionDescriptor>, queued: seq<UserId>, searching: set<UserId>)
    ensures r == None && queued == [2] && searching == {2}
  {
    var svc := new MatchingService();
    var empty := QueueSet([], [], []);
    assert Search([Female], empty, {1}, 1) == SearchResult(None, empty);
    assert Search([Male, Female], empty, {1}, 1) == SearchResult(None, empty);
    assert Search([All, Male, Female], empty, {1}, 1) == SearchResult(None, empty);
    var first := svc.TryMatch(1, "", "c1");
    svc.RemoveFromQueue(1);
    assert svc.Queues() == QueueSet([1], [], []) && svc.waiting == {};
    assert Search([Female], empty, {2}, 2) == SearchResult(None, empty);
    assert Search([Male, Female], empty, {2}, 2) == SearchResult(None, empty);
    assert Search([All, Male, Female], empty, {2}, 2) == SearchResult(None, empty);
    SearchSkipHead([All, Male, Female], QueueSet([1], [], []), {2}, 2);
    r := svc.TryMatch(2, "", "c2");
    queued, searching := svc.queueAll, svc.waiting;
  }

  /** A user searching twice discards its own first entry and is queued once more. */
  method RepeatedSearchNeverSelfMatches() returns (r: Option<SessionDescriptor>, queued: seq<UserId>)
    ensures r == None && queued == [1]
  {
    var svc := new MatchingService();
    var empty := QueueSet([], [], []);
    assert Search([All], empty, {1}, 1) == SearchResult(None, empty);
    var first := svc.TryMatch(1, "male", "c1");
    assert svc.Queues() == QueueSet([], [1], []);
    assert Search([Male, All], empty, {1}, 1) == SearchResult(None, empty);
    SearchSkipHead([Male, All], QueueSet([], [1], []), {1}, 1);
    r := svc.TryMatch(1, "male", "c1");
    queued := svc.queueMale;
  }

  /**
   * Of accept, a second accept, decline and cancel on one request, only the
   * first accept succeeds.
   */
  method AcceptIsExactlyOnce()
    returns (sent: Result<UserId, RequestError>, accepted: Option<SessionDescriptor>,
             again: Option<SessionDescriptor>, declined: bool, cancelled: bool)
    ensures sent == Success(2)
    ensures accepted == Some(SessionDescriptor(0, 1, 2, Code))
    ensures again == None && !declined && !cancelled
  {
    var svc := new MatchingService();
    svc.SetUserOnline(2, "c2");
    sent := svc.RequestConnectionByCode(1, Some(2), 100);
    accepted := svc.AcceptConnectionRequest(2, 1, 130);
    again := svc.AcceptConnectionRequest(2, 1, 131);
    declined := svc.DeclineConnectionRequest(2, 1);
    cancelled := svc.CancelConnectionRequest(1);
  }

  /** A request is still acceptable after exactly 60 seconds and no longer after 61. */
  method ExpiryBoundary() returns (atSixty: Option<SessionDescriptor>, atSixtyOne: Option<SessionDescriptor>)
    ensures atSixty == Some(SessionDescriptor(0, 1, 2, Code))
    ensures atSixtyOne == None
  {
    var svc := new MatchingService();
    svc.SetUserOnline(2, "c2");
    var sent := svc.RequestConnectionByCode(1, Some(2), 0);
    atSixty := svc.AcceptConnectionRequest(2, 1, 60);
    sent := svc.RequestConnectionByCode(1, Some(2), 100);
    atSixtyOne := svc.AcceptConnectionRequest(2, 1, 161);
  }

  /** A mismatched accept still consumes the request, so the rightful target can no longer accept it. */
  method WrongTargetConsumesRequest() returns (wrong: Option<SessionDescriptor>, right: Option<SessionDescriptor>)
    ensures wrong == None && right == None
  {
    var svc := new MatchingService();
    svc.SetUserOnline(2, "c2");
    var sent := svc.RequestConnectionByCode(1, Some(2), 0);
    wrong := svc.AcceptConnectionRequest(3, 1, 10);
    right := svc.AcceptConnectionRequest(2, 1, 10);
  }

  /** The request errors, in the order they are checked. */
  method RequestErrors()
    returns (unknown: Result<UserId, RequestError>, self: Result<UserId, RequestError>,
             offline: Result<UserId, RequestError>, duplicate: Result<UserId, RequestError>)
    ensures unknown == Failure(TargetNotFound) && self == Failure(TargetNotFound)
    ensures offline == Failure(TargetOffline) && duplicate == Failure(RequestAlreadyPending)
  {
    var svc := new MatchingService();
    unknown := svc.RequestConnectionByCode(1, None, 0);
    svc.SetUserOnline(1, "c1");
    self := svc.RequestConnectionByCode(1, Some(1), 0);
    offline := svc.RequestConnectionByCode(1, Some(3), 0);
    svc.SetUserOnline(2, "c2");
    svc.SetUserOnline(3, "c3");
    var sent := svc.RequestConnectionByCode(1, Some(2), 0);
    duplicate := svc.RequestConnectionByCode(1, Some(3), 0);
  }

  /**
   * When the target disconnects its incoming request disappears: accepting
   * fails, a new request to it fails as offline, and its lookup is absent.
   */
  method DisconnectPurgesRequests()
    returns (accepted: Option<SessionDescriptor>, retry: Result<UserId, RequestError>, conn: Option<ConnectionId>)
    ensures accepted == None && retry == Failure(TargetOffline) && conn == None
  {
    var svc := new MatchingService();
    svc.SetUserOnline(2, "c2");
    var sent := svc.RequestConnectionByCode(1, Some(2), 0);
    svc.SetUserOffline(2);
    accepted := svc.AcceptConnectionRequest(2, 1, 5);
    retry := svc.RequestConnectionByCode(3, Some(2), 5);
    conn := svc.GetConnectionId(2);
  }

  /** A searcher who disconnects is no longer matchable; its entry is discarded. */
  method DisconnectPurgesSearch() returns (matched: Option<SessionDescriptor>)
    ensures matched == None
  {
    var svc := new MatchingService();
    var empty := QueueSet([], [], []);
    assert Search([Female], empty, {2}, 2) == SearchResult(None, empty);
    assert Search([Male, Female], empty, {2}, 2) == SearchResult(None, empty);
    var waited := svc.TryMatch(2, "", "c2");
    svc.SetUserOffline(2);
    assert svc.Queues() == QueueSet([2], [], []) && svc.waiting == {};
    assert Search([Female], empty, {4}, 4) == SearchResult(None, empty);
    assert Search([Male, Female], empty, {4}, 4) == SearchResult(None, empty);
    assert Search([All, Male, Female], empty, {4}, 4) == SearchResult(None, empty);
    SearchSkipHead([All, Male, Female], QueueSet([2], [], []), {4}, 4);
    matched := svc.TryMatch(4, "", "c4");
  }

  /** Going online again overwrites the connection. */
  method ReconnectOverwrites() returns (conn: Option<ConnectionId>)
    ensures conn == Some("c2")
  {
    var svc := new MatchingService();
    svc.SetUserOnline(1, "c1");
    svc.SetUserOnline(1, "c2");
    conn := svc.GetConnectionId(1);
  }
}
