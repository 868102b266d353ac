/**
 * The login session table of pkg/xhttp/session.go: a map from session id to
 * expiry, looked up by the `session_id` cookie, filled by `SetSession` (which
 * evicts the oldest sessions beyond 100) and emptied entry by entry by
 * `DelSession`.
 *
 * The clock is a parameter `now` read once per call; the random id is a
 * parameter (None when the random source fails); the cookie is the already
 * unescaped value of `session_id`, or None when the request has none.
 * Instants and durations are whole seconds.
 */
module Sessions {
  import opened Wrappers
  import opened Sorting

  /** Lifetime of a new session: 12 hours. */
  const MaxAge: int := 12 * 60 * 60
  /** At most this many sessions are kept after an insertion. */
  const MaxLen: nat := 100

  datatype Session = Session(id: string, expiresAt: int)

  datatype SessionError = NoCookie | RandomFailure

  /** The ids of a list of sessions. */
  function IdsOf(s: seq<Session>): set<string> {
    set k | 0 <= k < |s| :: s[k].id
  }

  /** `s` lists every entry of `m` exactly once, as the source's `sessionArr`. */
  ghost predicate Listing(s: seq<Session>, m: map<string, int>) {
    && (forall k :: 0 <= k < |s| ==> s[k].id in m && s[k].expiresAt == m[s[k].id])
    && (forall p, q :: 0 <= p < q < |s| ==> s[p].id != s[q].id)
    && m.Keys <= IdsOf(s)
  }

  /**
   * What eviction promises, with `full` the table right after the insertion
   * and `kept` the table afterwards: at most 100 entries nothing is removed;
   * above 100, the kept entries are unchanged entries of `full`, at most 100,
   * none of them expired, none expiring before a removed one, and an
   * unexpired session is removed only when exactly 100 are kept.
   */
  ghost predicate Evicted(full: map<string, int>, kept: map<string, int>, now: int) {
    if |full| <= MaxLen then kept == full
    else
      && kept.Keys <= full.Keys
      && (forall id :: id in kept ==> kept[id] == full[id])
      && |kept| <= MaxLen
      && (forall id :: id in kept ==> !(kept[id] < now))
      && (forall r, id :: r in full && r !in kept && id in kept ==> full[r] <= full[id])
      && (forall r :: r in full && r !in kept && !(full[r] < now) ==> |kept| == MaxLen)
  }

  /** The unexpired entries of a table. */
  function Unexpired(m: map<string, int>, now: int): (u: map<string, int>)
    ensures u.Keys <= m.Keys
    ensures forall id :: id in u ==> u[id] == m[id] && !(m[id] < now)
    ensures forall id :: id in m && !(m[id] < now) ==> id in u
  {
    map id | id in m && !(m[id] < now) :: m[id]
  }

  /**
   * After an overflowing insertion, either exactly 100 sessions remain or
   * exactly the unexpired ones do: eviction never removes more than it must.
   */
  lemma EvictedKeepsFullOrUnexpired(full: map<string, int>, kept: map<string, int>, now: int)
    requires |full| > MaxLen && Evicted(full, kept, now)
    ensures |kept| == MaxLen || kept == Unexpired(full, now)
  {
    if |kept| != MaxLen {
      var u := Unexpired(full, now);
      assert kept.Keys == u.Keys;
    }
  }

  /** Eviction leaves at most 100 sessions whatever the size before. */
  lemma EvictedBounded(full: map<string, int>, kept: map<string, int>, now: int)
    requires Evicted(full, kept, now)
    ensures |kept| <= MaxLen
  {
  }

  lemma {:induction false} DistinctIds(s: seq<Session>)
    requires forall p, q :: 0 <= p < q < |s| ==> s[p].id != s[q].id
    ensures |IdsOf(s)| == |s|
  {
    if s != [] {
      var init := s[..|s| - 1];
      DistinctIds(init);
      assert IdsOf(s) == IdsOf(init) + {s[|s| - 1].id} by {
        assert forall k :: 0 <= k < |init| ==> init[k] == s[k];
      }
    }
  }

  lemma CardDifference(a: set<string>, b: set<string>)
    requires b <= a
    ensures |a - b| == |a| - |b|
  {
    assert a == (a - b) + b;
  }

  lemma IdsOfSnoc(s: seq<Session>, i: int)
    requires 0 <= i < |s|
    ensures IdsOf(s[..i + 1]) == IdsOf(s[..i]) + {s[i].id}
  {
    assert forall k :: 0 <= k < i ==> s[..i + 1][k] == s[..i][k];
  }

  /** Removing the ids of a prefix of a listing leaves exactly the ids of the rest. */
  lemma ListingSplit(a: seq<Session>, m: map<string, int>, j: int)
    requires Listing(a, m) && 0 <= j <= |a|
    ensures IdsOf(a[..j]) <= m.Keys
    ensures m.Keys - IdsOf(a[..j]) == IdsOf(a[j..])
    ensures |IdsOf(a[..j])| == j
  {
    DistinctIds(a[..j]);
    forall id | id in m.Keys - IdsOf(a[..j])
      ensures id in IdsOf(a[j..])
    {
      var q :| 0 <= q < |a| && a[q].id == id;
      assert q >= j;
      assert a[j..][q - j].id == id;
    }
    forall id | id in IdsOf(a[j..])
      ensures id in m.Keys - IdsOf(a[..j])
    {
      var q :| 0 <= q < |a| - j && a[j..][q].id == id;
      assert a[j + q].id == id;
    }
  }

  /** Past the stopping point `j` of the second loop, nothing is expired. */
  lemma KeptUnexpired(full: map<string, int>, a: seq<Session>, j: int, kept: map<string, int>, now: int)
    requires Listing(a, full) && 0 <= j <= |a|
    requires forall p, q :: 0 <= p < q < |a| ==> a[p].expiresAt <= a[q].expiresAt
    requires j == |a| || !(a[j].expiresAt < now)
    requires kept == full - IdsOf(a[..j]) && kept.Keys == IdsOf(a[j..])
    ensures forall id :: id in kept ==> !(kept[id] < now)
  {
    forall id | id in kept
      ensures !(kept[id] < now)
    {
      var q :| 0 <= q < |a| - j && a[j..][q].id == id;
      assert a[j + q].id == id;
    }
  }

  /** Every session deleted by either loop expires no later than every kept one. */
  lemma RemovedBeforeKept(full: map<string, int>, a: seq<Session>, j: int, kept: map<string, int>)
    requires Listing(a, full) && 0 <= j <= |a|
    requires forall p, q :: 0 <= p < q < |a| ==> a[p].expiresAt <= a[q].expiresAt
    requires kept == full - IdsOf(a[..j]) && kept.Keys == IdsOf(a[j..])
    ensures forall r, id :: r in full && r !in kept && id in kept ==> full[r] <= full[id]
  {
    forall r, id | r in full && r !in kept && id in kept
      ensures full[r] <= full[id]
    {
      var p :| 0 <= p < j && a[..j][p].id == r;
      var q :| 0 <= q < |a| - j && a[j..][q].id == id;
      assert a[p].expiresAt <= a[j + q].expiresAt;
    }
  }

  /**
   * In an expiry-sorted listing, if the second loop (from the surplus to `j`)
   * deleted only expired sessions, an unexpired one before `j` means the
   * second loop deleted nothing.
   */
  lemma UnexpiredBeforeStop(a: seq<Session>, start: int, j: int, now: int)
    requires forall p, q :: 0 <= p < q < |a| ==> a[p].expiresAt <= a[q].expiresAt
    requires 0 <= start <= j <= |a|
    requires forall k :: start <= k < j ==> a[k].expiresAt < now
    ensures forall p :: 0 <= p < j && !(a[p].expiresAt < now) ==> j == start
  {
    forall p | 0 <= p < j && !(a[p].expiresAt < now)
      ensures j == start
    {
      assert a[p].expiresAt <= a[j - 1].expiresAt;
    }
  }

  /** If the second loop deleted anything, everything deleted had expired. */
  lemma RemovedUnexpiredOnlyWhenFull(full: map<string, int>, a: seq<Session>, j: int, kept: map<string, int>, now: int)
    requires Listing(a, full) && |a| == |full| > MaxLen
    requires forall p, q :: 0 <= p < q < |a| ==> a[p].expiresAt <= a[q].expiresAt
    requires |full| - MaxLen <= j <= |full|
    requires forall k :: |full| - MaxLen <= k < j ==> a[k].expiresAt < now
    requires kept == full - IdsOf(a[..j]) && |kept| == |full| - j
    ensures forall r :: r in full && r !in kept && !(full[r] < now) ==> |kept| == MaxLen
  {
    UnexpiredBeforeStop(a, |full| - MaxLen, j, now);
    forall r | r in full && r !in kept && !(full[r] < now)
      ensures |kept| == MaxLen
    {
      var p :| 0 <= p < j && a[..j][p].id == r;
      assert !(a[p].expiresAt < now);
    }
  }

  /**
   * The two deletion loops over the expiry-sorted listing `a` establish
   * `Evicted`: `j` is where the second loop stopped.
   */
  lemma EvictionCorrect(full: map<string, int>, a: seq<Session>, j: int, kept: map<string, int>, now: int)
    requires |full| > MaxLen && |a| == |full|
    requires Listing(a, full)
    requires forall p, q :: 0 <= p < q < |a| ==> a[p].expiresAt <= a[q].expiresAt
    requires |full| - MaxLen <= j <= |full|
    requires kept == full - IdsOf(a[..j])
    requires forall k :: |full| - MaxLen <= k < j ==> a[k].expiresAt < now
    requires j == |full| || !(a[j].expiresAt < now)
    ensures Evicted(full, kept, now)
  {
    ListingSplit(a, full, j);
    CardDifference(full.Keys, IdsOf(a[..j]));
    KeptUnexpired(full, a, j, kept, now);
    RemovedBeforeKept(full, a, j, kept);
    RemovedUnexpiredOnlyWhenFull(full, a, j, kept, now);
  }

  /** Reordering a listing by a permutation gives a listing. */
  lemma ListingPermuted(s: seq<Session>, t: seq<Session>, perm: seq<nat>, m: map<string, int>)
    requires Listing(s, m) && |t| == |s|
    requires IsPermutation(perm, |s|) && forall k :: 0 <= k < |t| ==> t[k] == s[perm[k]]
    requires multiset(t) == multiset(s)
    ensures Listing(t, m)
  {
    forall id | id in m
      ensures id in IdsOf(t)
    {
      var j :| 0 <= j < |s| && s[j].id == id;
      assert s[j] in multiset(t);
      var k :| 0 <= k < |t| && t[k] == s[j];
    }
  }

  /** `s` lists the entries of `m` outside `rest`, each once. */
  ghost predicate ListedExcept(s: seq<Session>, m: map<string, int>, rest: set<string>) {
    && rest <= m.Keys
    && |s| + |rest| == |m|
    && (forall k :: 0 <= k < |s| ==> s[k].id in m && s[k].expiresAt == m[s[k].id])
    && (forall p, q :: 0 <= p < q < |s| ==> s[p].id != s[q].id)
    && IdsOf(s) == m.Keys - rest
  }

  lemma ListedExceptStep(s: seq<Session>, m: map<string, int>, rest: set<string>, id: string)
    requires ListedExcept(s, m, rest) && id in rest
    ensures ListedExcept(s + [Session(id, m[id])], m, rest - {id})
  {
    var s' := s + [Session(id, m[id])];
    IdsOfSnoc(s', |s|);
    assert s'[..|s|] == s;
    assert s'[..|s| + 1] == s';
  }

  /** `for _, session = range sessions`: the entries of `m` in an arbitrary order. */
  method Entries(m: map<string, int>) returns (s: seq<Session>)
    ensures |s| == |m| && Listing(s, m)
  {
    s := [];
    var rest := m.Keys;
    while rest != {}
      invariant ListedExcept(s, m, rest)
      decreases |rest|
    {
      var id :| id in rest;
      ListedExceptStep(s, m, rest, id);
      s := s + [Session(id, m[id])];
      rest := rest - {id};
    }
  }

  /** The entries of `m` sorted by expiry, as `sessionArr` after `sort.Slice`. */
  method SortedEntries(m: map<string, int>) returns (sorted: seq<Session>)
    ensures |sorted| == |m| && Listing(sorted, m)
    ensures forall p, q :: 0 <= p < q < |sorted| ==> sorted[p].expiresAt <= sorted[q].expiresAt
  {
    var s := Entries(m);
    var a := new Session[|s|](k requires 0 <= k < |s| => s[k]);
    assert a[..] == s;
    ghost var perm := SortSlice(a, (x: Session, y: Session) => x.expiresAt <= y.expiresAt);
    ListingPermuted(s, a[..], perm, m);
    sorted := a[..];
  }

  /** Deleting one more listed session extends the deleted prefix by one. */
  lemma DeleteStep(full: map<string, int>, a: seq<Session>, i: int, kept: map<string, int>)
    requires 0 <= i < |a| && kept == full - IdsOf(a[..i])
    ensures kept - {a[i].id} == full - IdsOf(a[..i + 1])
  {
    IdsOfSnoc(a, i);
  }

  /** The first deletion loop: the `|full| - 100` earliest-expiring sessions go. */
  method DeleteSurplus(full: map<string, int>, sessionArr: seq<Session>) returns (kept: map<string, int>, i: int)
    requires |sessionArr| == |full| > MaxLen
    ensures i == |full| - MaxLen && kept == full - IdsOf(sessionArr[..i])
  {
    kept := full;
    i := 0;
    while i < |full| - MaxLen
      invariant 0 <= i <= |full| - MaxLen
      invariant kept == full - IdsOf(sessionArr[..i])
    {
      DeleteStep(full, sessionArr, i, kept);
      kept := kept - {sessionArr[i].id};
      i := i + 1;
    }
  }

  /**
   * The second deletion loop: from position `start` on, expired sessions go,
   * until the first unexpired one or the end; `i` is where it stopped.
   */
  method DeleteExpired(full: map<string, int>, sessionArr: seq<Session>, start: int, surplusKept: map<string, int>, now: int)
    returns (kept: map<string, int>, i: int)
    requires 0 <= start <= |sessionArr|
    requires surplusKept == full - IdsOf(sessionArr[..start])
    ensures start <= i <= |sessionArr| && kept == full - IdsOf(sessionArr[..i])
    ensures forall k :: start <= k < i ==> sessionArr[k].expiresAt < now
    ensures i == |sessionArr| || !(sessionArr[i].expiresAt < now)
  {
    kept := surplusKept;
    i := start;
    while i < |sessionArr|
      invariant start <= i <= |sessionArr|
      invariant kept == full - IdsOf(sessionArr[..i])
      invariant forall k :: start <= k < i ==> sessionArr[k].expiresAt < now
    {
      if sessionArr[i].expiresAt < now {
        DeleteStep(full, sessionArr, i, kept);
        kept := kept - {sessionArr[i].id};
      } else {
        break;
      }
      i := i + 1;
    }
  }

  /**
   * The eviction block of `SetSession` on a table `full` of more than 100
   * sessions: list them by expiry, delete the surplus from the front, then
   * delete expired ones until the first unexpired one.
   */
  method Evict(full: map<string, int>, now: int) returns (kept: map<string, int>)
    requires |full| > MaxLen
    ensures Evicted(full, kept, now)
  {
    var sessionArr := SortedEntries(full);
    var surplusKept, i := DeleteSurplus(full, sessionArr);
    kept, i := DeleteExpired(full, sessionArr, i, surplusKept, now);
    EvictionCorrect(full, sessionArr, i, kept, now);
  }

  class SessionTable {
    /** Session id to expiry. */
    var sessions: map<string, int>

    /** The table never holds more than 100 sessions between calls. */
    ghost predicate Valid()
      reads this
    {
      |sessions| <= MaxLen
    }

    constructor ()
      ensures sessions == map[] && Valid()
    {
      sessions := map[];
    }

    /** `GetSession`: no cookie is an error; an unknown id is no session and no error. */
    function GetSession(cookie: Option<string>): (r: Result<Option<Session>, SessionError>)
      reads this
      ensures cookie.None? <==> r.Failure?
      ensures r.Failure? ==> r.error == NoCookie
      ensures r.Success? ==> (r.value.Some? <==> cookie.value in sessions)
      ensures r.Success? && r.value.Some? ==>
        r.value.value.id == cookie.value && r.value.value.expiresAt == sessions[cookie.value]
    {
      match cookie
      case None => Failure(NoCookie)
      case Some(id) => if id in sessions then Success(Some(Session(id, sessions[id]))) else Success(None)
    }

    /** `Expired`: no cookie, no session under its id, or a session that expired before `now`. */
    function Expired(cookie: Option<string>, now: int): (b: bool)
      reads this
      ensures b <==> cookie.None? || cookie.value !in sessions || sessions[cookie.value] < now
    {
      var r := GetSession(cookie);
      r.Failure? || r.value.None? || r.value.value.expiresAt < now
    }

    /**
     * `SetSession`: store a session under the new id, expiring 12 hours from
     * `now`; above 100 sessions, drop the earliest-expiring surplus and then
     * expired ones in expiry order, stopping at the first unexpired one.
     */
    method SetSession(id: Option<string>, now: int) returns (err: Option<SessionError>)
      requires Valid()
      modifies this
      ensures id.None? ==> err == Some(RandomFailure) && sessions == old(sessions)
      ensures id.Some? ==> err == None && Evicted(old(sessions)[id.value := now + MaxAge], sessions, now)
      ensures Valid()
    {
      if id.None? {
        return Some(RandomFailure);
      }
      err := None;
      sessions := sessions[id.value := now + MaxAge];
      if |sessions| > MaxLen {
        sessions := Evict(sessions, now);
      }
    }

    /** `DelSession`: remove the cookie's session; no cookie is an error and changes nothing. */
    method DelSession(cookie: Option<string>) returns (err: Option<SessionError>)
      requires Valid()
      modifies this
      ensures cookie.None? ==> err == Some(NoCookie) && sessions == old(sessions)
      ensures cookie.Some? ==> err == None && sessions == old(sessions) - {cookie.value}
      ensures Valid()
    {
      if cookie.None? {
        return Some(NoCookie);
      }
      sessions := sessions - {cookie.value};
      return None;
    }
  }
}
