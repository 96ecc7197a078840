/**
 * The single-slot admission queue of core.py: a FIFO list of waiting user
 * ids without duplicates, the user currently being served, a processing
 * flag, and a per-user stash of the job data a waiting user submitted.
 */
module Queue {
  import opened Wrappers

  /** Telegram user ids are Python ints. */
  type UserId = int

  predicate NoDuplicates<T(==)>(q: seq<T>)
  {
    forall i, j :: 0 <= i < j < |q| ==> q[i] != q[j]
  }

  /** `q.index(u) + 1`, or 0 when `u` is not in `q`: the 1-based position of the first `u`. */
  function Position<T(==)>(q: seq<T>, u: T): (p: nat)
    ensures p <= |q|
    ensures p == 0 <==> u !in q
    ensures p > 0 ==> q[p - 1] == u && u !in q[..p - 1]
  {
    if q == [] then 0
    else if q[0] == u then 1
    else
      var p := Position(q[1..], u);
      if p == 0 then 0
      else
        assert q[..p] == [q[0]] + q[1..][..p - 1];
        p + 1
  }

  /** The waiting list after `add_to_queue(u)`: `u` is appended only when it is absent. */
  function Enqueue<T(==)>(q: seq<T>, u: T): seq<T>
  {
    if u in q then q else q + [u]
  }

  /** `q.remove(u)` when `u` is present, `q` otherwise: the first `u` is dropped. */
  function RemoveFirst<T(==)>(q: seq<T>, u: T): (r: seq<T>)
    ensures u !in q ==> r == q
    ensures u in q ==> r == q[..Position(q, u) - 1] + q[Position(q, u)..]
  {
    if u in q then q[..Position(q, u) - 1] + q[Position(q, u)..] else q
  }

  /** Enqueueing never creates a duplicate. */
  lemma EnqueueNoDuplicates<T>(q: seq<T>, u: T)
    requires NoDuplicates(q)
    ensures NoDuplicates(Enqueue(q, u))
  {
  }

  /** Enqueueing only appends: every waiting user keeps its place, and `u` ends up waiting. */
  lemma EnqueueKeepsOrder<T>(q: seq<T>, u: T)
    ensures |Enqueue(q, u)| <= |q| + 1
    ensures Enqueue(q, u)[..|q|] == q
    ensures u in Enqueue(q, u)
  {
  }

  /** A newcomer is placed last; a user already waiting keeps its position and the list is unchanged. */
  lemma {:induction false} EnqueuePosition<T>(q: seq<T>, u: T)
    ensures u in q ==> Enqueue(q, u) == q && Position(Enqueue(q, u), u) == Position(q, u)
    ensures u !in q ==> Position(Enqueue(q, u), u) == |q| + 1
  {
    if u !in q {
      AppendedPosition(q, u);
    }
  }

  lemma {:induction false} AppendedPosition<T>(q: seq<T>, u: T)
    requires u !in q
    ensures Position(q + [u], u) == |q| + 1
  {
    if q != [] {
      assert (q + [u])[1..] == q[1..] + [u];
      AppendedPosition(q[1..], u);
    }
  }

  /** In a list without duplicates the position of an element is its index plus one. */
  lemma {:induction false} PositionOfIndex<T>(q: seq<T>, i: nat)
    requires NoDuplicates(q) && i < |q|
    ensures Position(q, q[i]) == i + 1
  {
    var p := Position(q, q[i]);
    assert q[p - 1] == q[i];
  }

  /** After removing the element at `k`, index `i` holds what index `i` or `i + 1` held before. */
  lemma RemovedIndex<T>(q: seq<T>, k: nat, i: nat)
    requires k < |q| && i < |q| - 1
    ensures (q[..k] + q[k + 1..])[i] == q[if i < k then i else i + 1]
  {
  }

  /** Removing a user keeps the list free of duplicates and the user is gone from it. */
  lemma RemoveFirstNoDuplicates<T>(q: seq<T>, u: T)
    requires NoDuplicates(q)
    ensures NoDuplicates(RemoveFirst(q, u))
    ensures u !in RemoveFirst(q, u)
  {
    if u in q {
      var k := Position(q, u) - 1;
      var r := q[..k] + q[k + 1..];
      assert RemoveFirst(q, u) == r;
      assert q[k] == u;
      forall i, j | 0 <= i < j < |r| ensures r[i] != r[j] {
        RemovedIndex(q, k, i);
        RemovedIndex(q, k, j);
      }
      forall i | 0 <= i < |r| ensures r[i] != u {
        RemovedIndex(q, k, i);
      }
    }
  }

  /**
   * Serving the head moves every other waiting user one place forward:
   * the queue depth drops by exactly one.
   */
  lemma ServingHeadAdvances<T>(q: seq<T>, v: T)
    requires NoDuplicates(q) && q != [] && v in q && v != q[0]
    ensures RemoveFirst(q, q[0]) == q[1..]
    ensures Position(RemoveFirst(q, q[0]), v) == Position(q, v) - 1
  {
    var i := Position(q, v) - 1;
    PositionOfIndex(q, i);
    PositionOfIndex(q[1..], i - 1);
  }

  /**
   * core.py's QueueManager. The stash type `D` is the job data that
   * handlers/download.py stores for a waiting user.
   */
  class QueueManager<D> {
    var queue: seq<UserId>
    var currentUser: Option<UserId>
    var processing: bool
    var userData: map<UserId, D>

    /** The waiting list has no duplicates, and the flag is set exactly when someone is being served. */
    ghost predicate Valid()
      reads this
    {
      NoDuplicates(queue) && (processing <==> currentUser.Some?)
    }

    constructor ()
      ensures Valid()
      ensures queue == [] && currentUser == None && !processing && userData == map[]
    {
      queue := [];
      currentUser := None;
      processing := false;
      userData := map[];
    }

    /** `add_to_queue`: append `u` if absent and return its 1-based position. */
    method AddToQueue(u: UserId) returns (position: nat)
      requires Valid()
      modifies this
      ensures Valid()
      ensures queue == Enqueue(old(queue), u)
      ensures 1 <= position <= |queue| && queue[position - 1] == u
      ensures currentUser == old(currentUser) && processing == old(processing) && userData == old(userData)
    {
      EnqueueNoDuplicates(queue, u);
      if u !in queue {
        queue := queue + [u];
      }
      position := Position(queue, u);
    }

    /** `start_processing`: `u` becomes the served user and leaves the waiting list. */
    method StartProcessing(u: UserId)
      requires Valid()
      modifies this
      ensures Valid()
      ensures currentUser == Some(u) && processing
      ensures queue == RemoveFirst(old(queue), u) && u !in queue
      ensures userData == old(userData)
    {
      RemoveFirstNoDuplicates(queue, u);
      currentUser := Some(u);
      processing := true;
      if u in queue {
        queue := RemoveFirst(queue, u);
      }
    }

    /** `finish_processing`: the slot is released; the waiting list and the stash are untouched. */
    method FinishProcessing()
      requires Valid()
      modifies this
      ensures Valid()
      ensures currentUser == None && !processing
      ensures queue == old(queue) && userData == old(userData)
    {
      currentUser := None;
      processing := false;
    }

    /** `get_next_user`: the head of the waiting list, which stays in it. */
    method GetNextUser() returns (next: Option<UserId>)
      ensures queue == [] ==> next == None
      ensures queue != [] ==> next == Some(queue[0])
    {
      next := if queue != [] then Some(queue[0]) else None;
    }

    method IsUserInQueue(u: UserId) returns (waiting: bool)
      ensures waiting <==> u in queue
    {
      waiting := u in queue;
    }

    /** `get_queue_position`: 1-based position, 0 when not waiting. */
    method GetQueuePosition(u: UserId) returns (position: nat)
      ensures position == 0 <==> u !in queue
      ensures position > 0 ==> position <= |queue| && queue[position - 1] == u
    {
      position := Position(queue, u);
    }

    method GetQueueSize() returns (size: nat)
      ensures size == |queue|
    {
      size := |queue|;
    }

    method IsProcessing() returns (busy: bool)
      requires Valid()
      ensures busy <==> currentUser.Some?
    {
      busy := processing;
    }

    /** `set_user_data`: stash (or replace) the job data of `u`. */
    method SetUserData(u: UserId, data: D)
      requires Valid()
      modifies this
      ensures Valid()
      ensures userData == old(userData)[u := data]
      ensures queue == old(queue) && currentUser == old(currentUser) && processing == old(processing)
    {
      userData := userData[u := data];
    }

    /** `get_user_data`: the stashed data of `u`, if any. */
    method GetUserData(u: UserId) returns (data: Option<D>)
      ensures data.Some? <==> u in userData
      ensures data.Some? ==> data.value == userData[u]
    {
      data := if u in userData then Some(userData[u]) else None;
    }

    /** `remove_user_data`: drop the stash entry of `u`; nothing happens when there is none. */
    method RemoveUserData(u: UserId)
      requires Valid()
      modifies this
      ensures Valid()
      ensures userData == old(userData) - {u}
      ensures u !in old(userData) ==> userData == old(userData)
      ensures queue == old(queue) && currentUser == old(currentUser) && processing == old(processing)
    {
      if u in userData {
        userData := map k | k in userData && k != u :: userData[k];
      }
    }
  }

  /**
   * Stash round trip: what `set_user_data` stores, `get_user_data` returns
   * until `remove_user_data` drops it; another user's entry is never
   * touched, and the queue state stays as it was.
   */
  method StashRoundTrip<D>(m: QueueManager<D>, u: UserId, data: D, other: UserId)
    returns (stored: Option<D>, removed: Option<D>, otherBefore: Option<D>, otherAfter: Option<D>)
    requires m.Valid() && other != u
    modifies m
    ensures m.Valid()
    ensures stored == Some(data) && removed == None
    ensures otherAfter == otherBefore
    ensures otherBefore == (if other in old(m.userData) then Some(old(m.userData)[other]) else None)
    ensures m.userData == old(m.userData) - {u}
    ensures m.queue == old(m.queue) && m.currentUser == old(m.currentUser) && m.processing == old(m.processing)
  {
    otherBefore := m.GetUserData(other);
    m.SetUserData(u, data);
    stored := m.GetUserData(u);
    m.RemoveUserData(u);
    removed := m.GetUserData(u);
    otherAfter := m.GetUserData(other);
  }
}
