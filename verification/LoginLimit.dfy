/**
 internal/server/login_limit.go: the window of login attempts that each client gets, and the token
 bucket that all password checks share.  Keys are client keys as normalizeLoginClientKey returns
 them, which are never empty; tokens are counted in exact arithmetic.
 */
module LoginLimit {
  import opened Model

  const RATE_WINDOW := MINUTE
  const ATTEMPT_RETENTION := 10 * MINUTE
  const MAX_ATTEMPTS: nat := 6
  const MAX_TRACKED: nat := 4096
  const BURST: real := 8.0
  const REFILL := SECOND

  type Key = string

  datatype Window = Window(startedAt: Time, lastSeenAt: Time, blockedUntil: Option<Time>, attempts: nat)

  datatype Verdict = Granted | Denied(retryAfter: int)

  // ----- One client -----

  /** normalizeLoginWindow: a missing window, or one that began a minute ago or earlier, starts afresh;
      a block that it carries is forgotten with it. */
  function Normalized(w: Option<Window>, now: Time): Window {
    if w.None? || now - w.value.startedAt >= RATE_WINDOW then Window(now, now, None, 0) else w.value
  }

  /** What a client is told at this instant. */
  function Decide(w: Option<Window>, now: Time): Verdict {
    var client := Normalized(w, now);
    if client.blockedUntil.Some? && client.blockedUntil.value > now then Denied(client.blockedUntil.value - now)
    else if client.attempts >= MAX_ATTEMPTS then Denied(RATE_WINDOW)
    else Granted
  }

  /** The window that is kept afterwards. */
  function Kept(w: Option<Window>, now: Time): Option<Window> {
    var client := Normalized(w, now);
    if client.blockedUntil.Some? && client.blockedUntil.value > now then w
    else if client.attempts >= MAX_ATTEMPTS
    then Some(client.(blockedUntil := Some(now + RATE_WINDOW), lastSeenAt := now))
    else Some(client.(attempts := client.attempts + 1, lastSeenAt := now))
  }

  // ----- All clients -----

  datatype Limiter = Limiter(attempts: map<Key, Window>, cleanupAt: Option<Time>)

  function Lookup(attempts: map<Key, Window>, key: Key): Option<Window> {
    if key in attempts then Some(attempts[key]) else None
  }

  predicate CleanupDue(l: Limiter, now: Time) {
    l.cleanupAt.None? || now - l.cleanupAt.value >= MINUTE
  }

  function WithoutOld(attempts: map<Key, Window>, now: Time): map<Key, Window> {
    map key | key in attempts && now - attempts[key].lastSeenAt < ATTEMPT_RETENTION :: attempts[key]
  }

  function Cleaned(l: Limiter, now: Time): Limiter {
    if CleanupDue(l, now) then Limiter(WithoutOld(l.attempts, now), Some(now)) else l
  }

  predicate MustEvict(l: Limiter, key: Key) {
    key !in l.attempts && |l.attempts| >= MAX_TRACKED
  }

  /** A client that was seen longest ago; between several the order of the map decides. */
  predicate Oldest(l: Limiter, victim: Key) {
    victim in l.attempts && forall key | key in l.attempts :: l.attempts[victim].lastSeenAt <= l.attempts[key].lastSeenAt
  }

  function Evicted(l: Limiter, key: Key, victim: Key): Limiter {
    if MustEvict(l, key) then l.(attempts := l.attempts - {victim}) else l
  }

  datatype Call = Reserve(key: Key, at: Time, victim: Key) | Clear(key: Key, at: Time)

  /** `cleans` is true in the original; a limiter that never cleans up is here for comparison. */
  predicate Possible(l: Limiter, call: Call, cleans: bool) {
    call.Reserve? ==>
      var c := if cleans then Cleaned(l, call.at) else l;
      call.key != "" && (MustEvict(c, call.key) ==> Oldest(c, call.victim))
  }

  /** reserveLoginAttempt and clearLoginAttempt. */
  function Step(l: Limiter, call: Call, cleans: bool): Limiter {
    match call
    case Reserve(key, at, victim) =>
      var c := Evicted(if cleans then Cleaned(l, at) else l, key, victim);
      var kept := Kept(Lookup(c.attempts, key), at);
      if kept.None? then c else c.(attempts := c.attempts[key := kept.value])
    case Clear(key, _) => l.(attempts := l.attempts - {key})
  }

  function Answer(l: Limiter, call: Call, cleans: bool): Verdict
    requires call.Reserve?
  {
    var c := Evicted(if cleans then Cleaned(l, call.at) else l, call.key, call.victim);
    Decide(Lookup(c.attempts, call.key), call.at)
  }

  // ----- Runs -----

  function After(calls: seq<Call>, cleans: bool): Limiter {
    if calls == [] then Limiter(map[], None)
    else Step(After(calls[..|calls| - 1], cleans), calls[|calls| - 1], cleans)
  }

  ghost predicate LegalCalls(calls: seq<Call>, cleans: bool) {
    && (forall i, j | 0 <= i < j < |calls| :: calls[i].at <= calls[j].at)
    && (forall i | 0 <= i < |calls| :: Possible(After(calls[..i], cleans), calls[i], cleans))
  }

  lemma LegalPrefix(calls: seq<Call>, cleans: bool)
    requires LegalCalls(calls, cleans) && calls != []
    ensures
      var n := |calls| - 1;
      LegalCalls(calls[..n], cleans) && Possible(After(calls[..n], cleans), calls[n], cleans)
  {
    var n := |calls| - 1;
    forall i | 0 <= i < n ensures Possible(After(calls[..n][..i], cleans), calls[..n][i], cleans) {
      assert calls[..n][..i] == calls[..i];
    }
  }

  /** At most 4096 clients are tracked, whatever they do. */
  lemma {:induction false} TracksAtMost4096(calls: seq<Call>, cleans: bool)
    requires LegalCalls(calls, cleans)
    ensures |After(calls, cleans).attempts| <= MAX_TRACKED
  {
    if calls != [] {
      var n := |calls| - 1;
      LegalPrefix(calls, cleans);
      TracksAtMost4096(calls[..n], cleans);
      StepTracks(After(calls[..n], cleans), calls[n], cleans);
    }
  }

  lemma SubmapIsSmaller(small: map<Key, Window>, large: map<Key, Window>)
    requires small.Keys <= large.Keys
    ensures |small| <= |large|
  {
    SubsetIsSmaller(small.Keys, large.Keys);
    assert |small| == |small.Keys| && |large| == |large.Keys|;
  }

  lemma SubsetIsSmaller(a: set<Key>, b: set<Key>)
    requires a <= b
    ensures |a| <= |b|
  {
    assert b == a + (b - a);
  }

  lemma EvictionMakesRoom(c: Limiter, key: Key, victim: Key)
    requires |c.attempts| <= MAX_TRACKED && (MustEvict(c, key) ==> victim in c.attempts)
    ensures |Evicted(c, key, victim).attempts.Keys + {key}| <= MAX_TRACKED
  {
    var e := Evicted(c, key, victim);
    assert |c.attempts.Keys| == |c.attempts|;
    if MustEvict(c, key) {
      assert c.attempts.Keys == e.attempts.Keys + {victim} && victim !in e.attempts.Keys;
    } else if key in c.attempts {
      assert c.attempts.Keys + {key} == c.attempts.Keys;
    }
  }

  lemma StepTracks(l: Limiter, call: Call, cleans: bool)
    requires |l.attempts| <= MAX_TRACKED && Possible(l, call, cleans)
    ensures |Step(l, call, cleans).attempts| <= MAX_TRACKED
  {
    hide Kept, CleanupDue, Evicted;
    if call.Clear? {
      SubmapIsSmaller(l.attempts - {call.key}, l.attempts);
    } else {
      var c := if cleans then Cleaned(l, call.at) else l;
      SubmapIsSmaller(c.attempts, l.attempts);
      EvictionMakesRoom(c, call.key, call.victim);
      var e, t := Evicted(c, call.key, call.victim), Step(l, call, cleans);
      SubsetIsSmaller(t.attempts.Keys, e.attempts.Keys + {call.key});
      assert |t.attempts.Keys| == |t.attempts|;
    }
  }

  // ----- At most 11 attempts a minute -----

  /** A granted attempt, and when the window it was counted in began. */
  datatype Grant = Grant(at: Time, start: Time)

  /** The grants of one client in a run. */
  function Grants(calls: seq<Call>, key: Key): seq<Grant> {
    if calls == [] then []
    else
      var n := |calls| - 1;
      var before, call := Grants(calls[..n], key), calls[n];
      var l := After(calls[..n], true);
      if call.Reserve? && call.key == key && Answer(l, call, true).Granted?
      then before + [Grant(call.at, Step(l, call, true).attempts[key].startedAt)] else before
  }

  /** The client is neither cleared nor evicted. */
  ghost predicate Stays(calls: seq<Call>, key: Key) {
    forall i | 0 <= i < |calls| ::
      if calls[i].Clear? then calls[i].key != key
      else MustEvict(Cleaned(After(calls[..i], true), calls[i].at), calls[i].key) ==> calls[i].victim != key
  }

  function Count(grants: seq<Grant>, p: Grant -> bool): nat {
    if grants == [] then 0 else (if p(grants[0]) then 1 else 0) + Count(grants[1..], p)
  }

  lemma {:induction false} CountAppend(grants: seq<Grant>, last: Grant, p: Grant -> bool)
    ensures Count(grants + [last], p) == Count(grants, p) + if p(last) then 1 else 0
  {
    if grants != [] {
      assert (grants + [last])[1..] == grants[1..] + [last];
      CountAppend(grants[1..], last, p);
    }
  }

  lemma {:induction false} CountSplits(grants: seq<Grant>, p: Grant -> bool, q: Grant -> bool, r: Grant -> bool)
    requires forall g | g in grants && p(g) :: q(g) || r(g)
    ensures Count(grants, p) <= Count(grants, q) + Count(grants, r)
  {
    if grants != [] {
      assert grants[0] in grants;
      CountSplits(grants[1..], p, q, r);
    }
  }

  lemma {:induction false} CountMisses(grants: seq<Grant>, p: Grant -> bool, q: Grant -> bool, miss: Grant)
    requires (forall g | g in grants && p(g) :: q(g)) && miss in grants && q(miss) && !p(miss)
    ensures Count(grants, p) < Count(grants, q)
  {
    assert grants[0] in grants;
    if miss in grants[1..] {
      CountMisses(grants[1..], p, q, miss);
    } else {
      assert miss == grants[0];
      CountSplits(grants[1..], p, q, _ => false);
      CountEmpty(grants[1..], _ => false);
    }
  }

  ghost function InWindow(start: Time): Grant -> bool {
    (g: Grant) => g.start == start
  }

  ghost function InMinute(from: Time): Grant -> bool {
    (g: Grant) => from <= g.at < from + RATE_WINDOW
  }

  /** Every grant lies in the minute of its window, which began with a grant. */
  ghost predicate InOwnWindows(grants: seq<Grant>) {
    forall g | g in grants :: g.start <= g.at < g.start + RATE_WINDOW && Grant(g.start, g.start) in grants
  }

  /** Windows do not overlap. */
  ghost predicate Apart(grants: seq<Grant>) {
    forall g, h | g in grants && h in grants && g.start < h.start :: g.start + RATE_WINDOW <= h.start
  }

  /** A window holds at most six grants. */
  ghost predicate SixEach(grants: seq<Grant>) {
    forall start :: Count(grants, InWindow(start)) <= MAX_ATTEMPTS
  }

  ghost predicate Windowed(grants: seq<Grant>) {
    InOwnWindows(grants) && Apart(grants) && SixEach(grants)
  }

  /** What the client's window knows of its grants. */
  ghost predicate Remembers(w: Option<Window>, grants: seq<Grant>, now: Time) {
    && (forall g | g in grants :: g.start <= now)
    && (w.None? ==> forall g | g in grants :: g.start + RATE_WINDOW <= now)
    && (w.Some? ==>
          && w.value.startedAt <= w.value.lastSeenAt <= now
          && Grant(w.value.startedAt, w.value.startedAt) in grants
          && Count(grants, InWindow(w.value.startedAt)) == w.value.attempts <= MAX_ATTEMPTS
          && forall g | g in grants :: g.start <= w.value.startedAt)
  }

  lemma {:induction false} CountNothing(grants: seq<Grant>, start: Time)
    requires forall g | g in grants :: g.start != start
    ensures Count(grants, InWindow(start)) == 0
  {
    if grants != [] {
      assert grants[0] in grants;
      CountNothing(grants[1..], start);
    }
  }

  lemma AppendOwn(grants: seq<Grant>, last: Grant)
    requires InOwnWindows(grants) && last.start <= last.at < last.start + RATE_WINDOW
    requires last.start == last.at || Grant(last.start, last.start) in grants
    ensures InOwnWindows(grants + [last])
  {
  }

  lemma AppendApart(grants: seq<Grant>, last: Grant)
    requires Apart(grants) && forall g | g in grants :: g.start == last.start || g.start + RATE_WINDOW <= last.start
    ensures Apart(grants + [last])
  {
  }

  lemma AppendSix(grants: seq<Grant>, last: Grant)
    requires SixEach(grants) && Count(grants, InWindow(last.start)) < MAX_ATTEMPTS
    ensures SixEach(grants + [last])
  {
    forall start ensures Count(grants + [last], InWindow(start)) <= MAX_ATTEMPTS {
      CountAppend(grants, last, InWindow(start));
    }
  }

  /** A window that is over lies a minute back or more. */
  lemma OverIsPast(w: Option<Window>, grants: seq<Grant>, now: Time)
    requires Remembers(w, grants, now) && Normalized(w, now).startedAt == now && Normalized(w, now).attempts == 0
    requires w.Some? ==> now - w.value.startedAt >= RATE_WINDOW
    ensures forall g | g in grants :: g.start + RATE_WINDOW <= now
    ensures Count(grants, InWindow(now)) == 0
  {
    CountNothing(grants, now);
  }

  lemma OthersArePast(w: Option<Window>, grants: seq<Grant>, now: Time)
    requires Windowed(grants) && Remembers(w, grants, now) && w.Some?
    ensures forall g | g in grants :: g.start == w.value.startedAt || g.start + RATE_WINDOW <= w.value.startedAt
  {
    hide Count;
  }

  lemma GrantFits(w: Option<Window>, grants: seq<Grant>, now: Time)
    requires Windowed(grants) && Remembers(w, grants, now) && Decide(w, now).Granted?
    ensures Kept(w, now).Some?
    ensures
      var kept := Kept(w, now).value;
      var next := grants + [Grant(now, kept.startedAt)];
      Windowed(next) && Remembers(Some(kept), next, now)
  {
    hide Count, InOwnWindows, Apart, SixEach;
    var kept := Kept(w, now).value;
    var last := Grant(now, kept.startedAt);
    if w.None? || now - w.value.startedAt >= RATE_WINDOW {
      OverIsPast(w, grants, now);
    } else {
      OthersArePast(w, grants, now);
    }
    AppendOwn(grants, last);
    AppendApart(grants, last);
    AppendSix(grants, last);
    CountAppend(grants, last, InWindow(kept.startedAt));
  }

  lemma DenialFits(w: Option<Window>, grants: seq<Grant>, now: Time)
    requires Remembers(w, grants, now) && Decide(w, now).Denied?
    ensures Kept(w, now).Some? && Remembers(Kept(w, now), grants, now)
  {
  }

  /** Forgetting a client that was last seen ten minutes ago forgets no window that still counts. */
  lemma CleanupFits(l: Limiter, key: Key, grants: seq<Grant>, now: Time)
    requires Remembers(Lookup(l.attempts, key), grants, now)
    ensures Remembers(Lookup(Cleaned(l, now).attempts, key), grants, now)
  {
  }

  lemma StaysPrefix(calls: seq<Call>, key: Key)
    requires Stays(calls, key) && calls != []
    ensures Stays(calls[..|calls| - 1], key)
  {
    hide MustEvict, Cleaned, After;
    var n := |calls| - 1;
    forall i | 0 <= i < n ensures calls[..n][..i] == calls[..i] && calls[..n][i] == calls[i] {
    }
  }

  /** One call of any client, as the client with this key sees it. */
  lemma CallFits(l: Limiter, call: Call, key: Key, grants: seq<Grant>)
    requires Windowed(grants) && Remembers(Lookup(l.attempts, key), grants, call.at)
    requires if call.Clear? then call.key != key
             else MustEvict(Cleaned(l, call.at), call.key) ==> call.victim != key
    ensures
      var granted := call.Reserve? && call.key == key && Answer(l, call, true).Granted?;
      var w := Lookup(Step(l, call, true).attempts, key);
      && (granted ==> w.Some?)
      && var next := if granted then grants + [Grant(call.at, w.value.startedAt)] else grants;
         Windowed(next) && Remembers(w, next, call.at)
  {
    hide Windowed, Remembers, Decide, Kept, Cleaned, MustEvict, Count;
    if call.Reserve? {
      CleanupFits(l, key, grants, call.at);
      var w := Lookup(Evicted(Cleaned(l, call.at), call.key, call.victim).attempts, key);
      assert w == Lookup(Cleaned(l, call.at).attempts, key);
      if call.key == key {
        if Decide(w, call.at).Granted? {
          GrantFits(w, grants, call.at);
        } else {
          DenialFits(w, grants, call.at);
        }
      }
    }
  }

  lemma {:induction false} GrantsAreWindowed(calls: seq<Call>, key: Key, now: Time)
    requires LegalCalls(calls, true) && Stays(calls, key)
    requires calls != [] ==> calls[|calls| - 1].at <= now
    ensures Windowed(Grants(calls, key)) && Remembers(Lookup(After(calls, true).attempts, key), Grants(calls, key), now)
  {
    hide Windowed, Remembers, Step, Answer, MustEvict, Cleaned;
    if calls == [] {
      NoGrants(now);
    } else {
      var n := |calls| - 1;
      var l := After(calls[..n], true);
      LegalPrefix(calls, true);
      StaysPrefix(calls, key);
      assert n > 0 ==> calls[n - 1].at <= calls[n].at;
      GrantsAreWindowed(calls[..n], key, calls[n].at);
      CallFits(l, calls[n], key, Grants(calls[..n], key));
      RemembersLater(Lookup(After(calls, true).attempts, key), Grants(calls, key), calls[n].at, now);
    }
  }

  lemma NoGrants(now: Time)
    ensures Windowed([]) && Remembers(None, [], now)
  {
  }

  lemma RemembersLater(w: Option<Window>, grants: seq<Grant>, now: Time, later: Time)
    requires Remembers(w, grants, now) && now <= later
    ensures Remembers(w, grants, later)
  {
  }

  /** The grants of one minute that belong to one window. */
  ghost function InBoth(from: Time, start: Time): Grant -> bool {
    (g: Grant) => from <= g.at < from + RATE_WINDOW && g.start == start
  }

  lemma {:induction false} CountEmpty(grants: seq<Grant>, p: Grant -> bool)
    requires forall g | g in grants :: !p(g)
    ensures Count(grants, p) == 0
  {
    if grants != [] {
      assert grants[0] in grants;
      CountEmpty(grants[1..], p);
    }
  }

  /** Of a window that began before the minute, at most five grants lie in it. */
  lemma FiveOfAnEarlierWindow(grants: seq<Grant>, from: Time, start: Time)
    requires Windowed(grants) && start < from && exists g :: g in grants && g.start == start
    ensures Count(grants, InBoth(from, start)) <= 5
  {
    hide Count;
    CountMisses(grants, InBoth(from, start), InWindow(start), Grant(start, start));
  }

  lemma SixOfAWindow(grants: seq<Grant>, from: Time, start: Time)
    requires Windowed(grants)
    ensures Count(grants, InBoth(from, start)) <= 6
  {
    hide Count;
    CountSplits(grants, InBoth(from, start), InWindow(start), _ => false);
    CountEmpty(grants, _ => false);
  }

  /** Two grants of one minute lie in the same window or in neighbouring ones: never in a third. */
  lemma TwoWindows(grants: seq<Grant>, from: Time, g: Grant, h: Grant)
    requires Windowed(grants) && g in grants && h in grants && InMinute(from)(g) && InMinute(from)(h)
    ensures g.start < h.start ==> g.start < from && g.start + RATE_WINDOW <= h.start < from + RATE_WINDOW
    ensures from < g.start + RATE_WINDOW && from < h.start + RATE_WINDOW
  {
    hide Count;
  }

  /** Counting the grants of one minute over at most two windows. */
  lemma MinuteOverWindows(grants: seq<Grant>, from: Time)
    requires Windowed(grants)
    ensures Count(grants, InMinute(from)) <= 11
  {
    hide Count, Windowed;
    var inMinute := InMinute(from);
    if forall g | g in grants :: !inMinute(g) {
      CountEmpty(grants, inMinute);
    } else {
      var g :| g in grants && inMinute(g);
      if forall h | h in grants && inMinute(h) :: h.start == g.start {
        OneWindow(grants, from, g.start);
      } else {
        var h :| h in grants && inMinute(h) && h.start != g.start;
        if g.start < h.start {
          MinuteOverTwo(grants, from, g, h);
        } else {
          MinuteOverTwo(grants, from, h, g);
        }
      }
    }
  }

  lemma OneWindow(grants: seq<Grant>, from: Time, start: Time)
    requires Windowed(grants) && forall h | h in grants && InMinute(from)(h) :: h.start == start
    ensures Count(grants, InMinute(from)) <= 6
  {
    hide Count, Windowed;
    CountSplits(grants, InMinute(from), InBoth(from, start), _ => false);
    CountEmpty(grants, _ => false);
    SixOfAWindow(grants, from, start);
  }

  lemma MinuteOverTwo(grants: seq<Grant>, from: Time, g: Grant, h: Grant)
    requires Windowed(grants) && g in grants && h in grants && InMinute(from)(g) && InMinute(from)(h) && g.start < h.start
    ensures Count(grants, InMinute(from)) <= 11
  {
    hide Count, Windowed;
    TwoWindows(grants, from, g, h);
    forall k | k in grants && InMinute(from)(k) ensures InBoth(from, g.start)(k) || InBoth(from, h.start)(k) {
      TwoWindows(grants, from, g, k);
      TwoWindows(grants, from, k, h);
      TwoWindows(grants, from, h, k);
      TwoWindows(grants, from, k, g);
    }
    CountSplits(grants, InMinute(from), InBoth(from, g.start), InBoth(from, h.start));
    FiveOfAnEarlierWindow(grants, from, g.start);
    SixOfAWindow(grants, from, h.start);
  }

  /** In any run, a client that is neither cleared nor evicted gets at most 11 attempts in any
      half-open minute. */
  lemma ElevenAttemptsAMinute(calls: seq<Call>, key: Key, from: Time)
    requires LegalCalls(calls, true) && Stays(calls, key)
    ensures Count(Grants(calls, key), InMinute(from)) <= 11
  {
    GrantsAreWindowed(calls, key, if calls == [] then 0 else calls[|calls| - 1].at);
    MinuteOverWindows(Grants(calls, key), from);
  }

  // ----- Eleven is reached -----

  function Only(key: Key, w: Option<Window>): map<Key, Window> {
    if w.None? then map[] else map[key := w.value]
  }

  /** A run that leaves one client alone in the limiter, with this window, last called no later than `now`. */
  ghost predicate Alone(calls: seq<Call>, key: Key, w: Option<Window>, now: Time) {
    && LegalCalls(calls, true) && Stays(calls, key)
    && (calls != [] ==> calls[|calls| - 1].at <= now)
    && After(calls, true).attempts == Only(key, w)
  }

  lemma NoCalls(key: Key, now: Time)
    ensures Alone([], key, None, now) && Grants([], key) == []
  {
  }

  /** A client that was seen within ten minutes is not cleaned up, and alone in the limiter it is not evicted. */
  lemma AloneInLimiter(l: Limiter, key: Key, w: Option<Window>, at: Time)
    requires l.attempts == Only(key, w) && (w.Some? ==> at - w.value.lastSeenAt < ATTEMPT_RETENTION)
    ensures Cleaned(l, at).attempts == Only(key, w) && !MustEvict(Cleaned(l, at), key)
  {
    assert Cleaned(l, at).attempts == Only(key, w);
    assert |Only(key, w)| <= 1;
  }

  /** The client's next attempt. */
  lemma OneMoreCall(calls: seq<Call>, key: Key, w: Option<Window>, now: Time, at: Time)
    requires Alone(calls, key, w, now) && now <= at && key != ""
    requires w.Some? ==> at - w.value.lastSeenAt < ATTEMPT_RETENTION
    ensures
      var call, kept := Reserve(key, at, ""), Kept(w, at);
      && kept.Some? && Alone(calls + [call], key, kept, at)
      && Answer(After(calls, true), call, true) == Decide(w, at)
      && Grants(calls + [call], key) ==
           Grants(calls, key) + if Decide(w, at).Granted? then [Grant(at, kept.value.startedAt)] else []
  {
    var call, l := Reserve(key, at, ""), After(calls, true);
    AloneInLimiter(l, key, w, at);
    StepAlone(l, key, w, at);
    hide Decide, Kept, Cleaned, MustEvict, Step, Answer;
    assert (calls + [call])[..|calls|] == calls;
    TimesGoOn(calls, call);
    LegalOneMore(calls + [call], true);
    StaysOneMore(calls, call, key);
  }

  lemma StepAlone(l: Limiter, key: Key, w: Option<Window>, at: Time)
    requires Cleaned(l, at).attempts == Only(key, w) && !MustEvict(Cleaned(l, at), key) && key != ""
    ensures
      var call := Reserve(key, at, "");
      && Possible(l, call, true) && Kept(w, at).Some?
      && Step(l, call, true).attempts == Only(key, Kept(w, at)) && Answer(l, call, true) == Decide(w, at)
  {
    hide Cleaned, MustEvict, Decide;
    assert Lookup(Only(key, w), key) == w;
    assert Kept(w, at).Some?;
  }

  lemma StaysOneMore(calls: seq<Call>, call: Call, key: Key)
    requires Stays(calls, key) && call.Reserve? && !MustEvict(Cleaned(After(calls, true), call.at), call.key)
    ensures Stays(calls + [call], key)
  {
    hide MustEvict, Cleaned, After;
    var longer, n := calls + [call], |calls|;
    assert longer[..n] == calls;
    forall i | 0 <= i < n ensures longer[..i] == calls[..i] && longer[i] == calls[i] {
    }
  }

  lemma TimesGoOn(calls: seq<Call>, call: Call)
    requires LegalCalls(calls, true) && (calls != [] ==> calls[|calls| - 1].at <= call.at)
    ensures
      var longer := calls + [call];
      forall i, j | 0 <= i < j < |longer| :: longer[i].at <= longer[j].at
  {
    hide After, Possible;
    var longer, n := calls + [call], |calls|;
    forall i, j | 0 <= i < j < |longer| ensures longer[i].at <= longer[j].at {
      assert longer[i] == calls[i] && calls[i].at <= calls[n - 1].at;
    }
  }

  /** Attempts at one instant for which the window has room are all granted. */
  lemma {:induction false} ManyGrants(calls: seq<Call>, key: Key, w: Window, now: Time, at: Time, n: nat, from: Time)
      returns (more: seq<Call>)
    requires Alone(calls, key, Some(w), now) && now <= at && key != ""
    requires w.blockedUntil.None? && w.attempts + n <= MAX_ATTEMPTS && at - w.startedAt < RATE_WINDOW
    requires w.startedAt <= w.lastSeenAt <= now
    ensures
      Alone(more, key, Some(Window(w.startedAt, if n == 0 then w.lastSeenAt else at, None, w.attempts + n)), at)
    ensures
      Count(Grants(more, key), InMinute(from)) ==
        Count(Grants(calls, key), InMinute(from)) + if from <= at < from + RATE_WINDOW then n else 0
    decreases n
  {
    hide Count, LegalCalls, Stays, After, Grants;
    if n == 0 {
      more := calls;
    } else {
      OneMoreCall(calls, key, Some(w), now, at);
      CountAppend(Grants(calls, key), Grant(at, w.startedAt), InMinute(from));
      more := ManyGrants(calls + [Reserve(key, at, "")], key, Kept(Some(w), at).value, at, at, n - 1, from);
    }
  }

  /** The first attempt of a window. */
  lemma FirstGrant(calls: seq<Call>, key: Key, w: Option<Window>, now: Time, at: Time, from: Time) returns (more: seq<Call>)
    requires Alone(calls, key, w, now) && now <= at && key != ""
    requires w.Some? ==> at - w.value.startedAt >= RATE_WINDOW && at - w.value.lastSeenAt < ATTEMPT_RETENTION
    ensures more == calls + [Reserve(key, at, "")] && Alone(more, key, Some(Window(at, at, None, 1)), at)
    ensures
      Count(Grants(more, key), InMinute(from)) ==
        Count(Grants(calls, key), InMinute(from)) + if from <= at < from + RATE_WINDOW then 1 else 0
  {
    hide Count, LegalCalls, Stays, After, Grants;
    OneMoreCall(calls, key, w, now, at);
    CountAppend(Grants(calls, key), Grant(at, at), InMinute(from));
    more := calls + [Reserve(key, at, "")];
  }

  /** Eleven is not a rough bound: every client can get that many in the minute that begins 59 seconds after its first
      attempt, without being cleared or evicted. */
  lemma ElevenIsReached(key: Key, first: Time) returns (calls: seq<Call>)
    requires key != ""
    ensures LegalCalls(calls, true) && Stays(calls, key)
    ensures Count(Grants(calls, key), InMinute(first + 59 * SECOND)) == 11
  {
    hide Count, LegalCalls, Stays, After, Grants;
    var from := first + 59 * SECOND;
    NoCalls(key, first);
    CountNone(InMinute(from));
    calls := FirstGrant([], key, None, first, first, from);
    calls := ManyGrants(calls, key, Window(first, first, None, 1), first, from, 5, from);
    var next := first + RATE_WINDOW;
    calls := FirstGrant(calls, key, Some(Window(first, from, None, 6)), from, next, from);
    calls := ManyGrants(calls, key, Window(next, next, None, 1), next, next, 5, from);
  }

  lemma CountNone(p: Grant -> bool)
    ensures Count([], p) == 0
  {
  }

  // ----- Cleaning up changes no decision -----

  /** What a limiter `a` that cleans up has forgotten of the clients of `b`, which never does: only clients that
      were seen ten minutes ago or longer, and all of them before any that it remembers. */
  ghost predicate ForgetsOldest(a: Limiter, b: Limiter, now: Time) {
    && (forall key | key in a.attempts :: key in b.attempts && a.attempts[key] == b.attempts[key])
    && (forall key | key in b.attempts :: b.attempts[key].startedAt <= b.attempts[key].lastSeenAt <= now)
    && (forall key | key in b.attempts && key !in a.attempts :: now - b.attempts[key].lastSeenAt >= ATTEMPT_RETENTION)
    && (forall key, other | key in b.attempts && key !in a.attempts && other in a.attempts ::
          b.attempts[key].lastSeenAt < a.attempts[other].lastSeenAt)
  }

  lemma NothingForgotten(now: Time)
    ensures ForgetsOldest(Limiter(map[], None), Limiter(map[], None), now)
  {
  }

  lemma ForgetsLater(a: Limiter, b: Limiter, now: Time, later: Time)
    requires ForgetsOldest(a, b, now) && now <= later
    ensures ForgetsOldest(a, b, later)
  {
  }

  /** A cleanup forgets the oldest clients only. */
  lemma CleanupForgetsOldest(a: Limiter, b: Limiter, now: Time)
    requires ForgetsOldest(a, b, now)
    ensures ForgetsOldest(Cleaned(a, now), b, now)
  {
  }

  /** A limiter that is full has forgotten nothing. */
  lemma FullForgetsNothing(a: Limiter, b: Limiter, now: Time)
    requires ForgetsOldest(a, b, now) && |b.attempts| <= MAX_TRACKED && |a.attempts| >= MAX_TRACKED
    ensures a.attempts == b.attempts
  {
    assert a.attempts.Keys <= b.attempts.Keys;
    SameSizeSubset(a.attempts.Keys, b.attempts.Keys);
    assert |a.attempts.Keys| == |a.attempts| && |b.attempts.Keys| == |b.attempts|;
  }

  lemma SameSizeSubset(a: set<Key>, b: set<Key>)
    requires a <= b && |a| >= |b|
    ensures a == b
  {
    if a != b {
      var key :| key in b && key !in a;
      SubsetIsSmaller(a, b - {key});
    }
  }

  /** Evictions agree: a limiter with room keeps what it has, and the other evicts a client already forgotten;
      without room both hold the same clients and evict the same one. */
  lemma EvictionsAgree(a: Limiter, b: Limiter, key: Key, victim: Key, now: Time)
    requires ForgetsOldest(a, b, now) && |b.attempts| <= MAX_TRACKED
    requires MustEvict(b, key) ==> Oldest(b, victim)
    ensures MustEvict(a, key) ==> Oldest(a, victim)
    ensures ForgetsOldest(Evicted(a, key, victim), Evicted(b, key, victim), now)
  {
    if MustEvict(a, key) {
      FullForgetsNothing(a, b, now);
    } else if MustEvict(b, key) {
      SomeForgotten(a, b, key);
      assert victim !in a.attempts;
    }
  }

  lemma SomeForgotten(a: Limiter, b: Limiter, key: Key)
    requires MustEvict(b, key) && !MustEvict(a, key) && a.attempts.Keys <= b.attempts.Keys
    ensures exists forgotten :: forgotten in b.attempts && forgotten !in a.attempts
  {
    assert |a.attempts.Keys| == |a.attempts| && |b.attempts.Keys| == |b.attempts|;
    if b.attempts.Keys <= a.attempts.Keys {
      SubsetIsSmaller(b.attempts.Keys, a.attempts.Keys);
    }
  }

  /** A forgotten client would start afresh anyway, so both give the same answer and keep the same window. */
  lemma ForgottenStartAfresh(a: Limiter, b: Limiter, key: Key, now: Time)
    requires ForgetsOldest(a, b, now)
    ensures
      var v, w := Lookup(a.attempts, key), Lookup(b.attempts, key);
      Decide(v, now) == Decide(w, now) && Kept(v, now) == Kept(w, now) && Kept(v, now).Some?
    ensures
      var kept := Kept(Lookup(a.attempts, key), now).value;
      && kept.startedAt <= kept.lastSeenAt <= now
      && (kept.lastSeenAt == now || Lookup(a.attempts, key) == Some(kept))
  {
  }

  lemma WriteForgets(a: Limiter, b: Limiter, key: Key, w: Window, now: Time)
    requires ForgetsOldest(a, b, now) && w.startedAt <= w.lastSeenAt <= now
    requires w.lastSeenAt == now || Lookup(a.attempts, key) == Some(w)
    ensures ForgetsOldest(a.(attempts := a.attempts[key := w]), b.(attempts := b.attempts[key := w]), now)
  {
  }

  /** One call to a limiter that cleans up and to one that does not. */
  lemma CallsAgree(a: Limiter, b: Limiter, call: Call)
    requires ForgetsOldest(a, b, call.at) && |b.attempts| <= MAX_TRACKED && Possible(b, call, false)
    ensures Possible(a, call, true)
    ensures call.Reserve? ==> Answer(a, call, true) == Answer(b, call, false)
    ensures ForgetsOldest(Step(a, call, true), Step(b, call, false), call.at)
  {
    hide ForgetsOldest, Decide, Kept, Cleaned, MustEvict, Oldest, Evicted;
    if call.Reserve? {
      var c := Cleaned(a, call.at);
      CleanupForgetsOldest(a, b, call.at);
      EvictionsAgree(c, b, call.key, call.victim, call.at);
      var e, f := Evicted(c, call.key, call.victim), Evicted(b, call.key, call.victim);
      ForgottenStartAfresh(e, f, call.key, call.at);
      WriteForgets(e, f, call.key, Kept(Lookup(e.attempts, call.key), call.at).value, call.at);
    } else {
      ClearForgets(a, b, call.key, call.at);
    }
  }

  lemma ClearForgets(a: Limiter, b: Limiter, key: Key, now: Time)
    requires ForgetsOldest(a, b, now)
    ensures ForgetsOldest(a.(attempts := a.attempts - {key}), b.(attempts := b.attempts - {key}), now)
  {
  }

  /** Every run of a limiter that never cleans up is a run of one that does, with the same evictions asked for. */
  lemma {:induction false} RunsAgree(calls: seq<Call>, now: Time)
    requires LegalCalls(calls, false) && (calls != [] ==> calls[|calls| - 1].at <= now)
    ensures LegalCalls(calls, true) && ForgetsOldest(After(calls, true), After(calls, false), now)
  {
    hide ForgetsOldest, Step, Possible;
    if calls == [] {
      NothingForgotten(now);
    } else {
      var n := |calls| - 1;
      LegalPrefix(calls, false);
      assert n > 0 ==> calls[n - 1].at <= calls[n].at;
      RunsAgree(calls[..n], calls[n].at);
      TracksAtMost4096(calls[..n], false);
      CallsAgree(After(calls[..n], true), After(calls[..n], false), calls[n]);
      LegalOneMore(calls, true);
      ForgetsLater(After(calls, true), After(calls, false), calls[n].at, now);
    }
  }

  lemma LegalOneMore(calls: seq<Call>, cleans: bool)
    requires calls != [] && LegalCalls(calls[..|calls| - 1], cleans)
    requires forall i, j | 0 <= i < j < |calls| :: calls[i].at <= calls[j].at
    requires Possible(After(calls[..|calls| - 1], cleans), calls[|calls| - 1], cleans)
    ensures LegalCalls(calls, cleans)
  {
    hide Possible, After;
    var n := |calls| - 1;
    forall i | 0 <= i <= n ensures Possible(After(calls[..i], cleans), calls[i], cleans) {
      if i < n { assert calls[..n][..i] == calls[..i] && calls[..n][i] == calls[i]; }
    }
  }

  /** In any run, evictions included, every call gets the answer it would get from a limiter that never cleans up. */
  lemma CleanupChangesNoDecision(calls: seq<Call>, next: Call)
    requires LegalCalls(calls + [next], false) && next.Reserve?
    ensures LegalCalls(calls + [next], true)
    ensures Answer(After(calls, true), next, true) == Answer(After(calls, false), next, false)
  {
    hide ForgetsOldest, Step, After, Answer, Possible;
    var all := calls + [next];
    assert all[..|calls|] == calls;
    LegalPrefix(all, false);
    assert calls != [] ==> all[|calls| - 1].at <= all[|calls|].at;
    RunsAgree(all, next.at);
    RunsAgree(calls, next.at);
    TracksAtMost4096(calls, false);
    CallsAgree(After(calls, true), After(calls, false), next);
  }

  /** The same call but for the client to evict, which matters only where one must be evicted. */
  ghost predicate SameCall(call: Call, twin: Call) {
    if call.Reserve? then twin.Reserve? && twin.key == call.key && twin.at == call.at else twin == call
  }

  ghost predicate SameCalls(calls: seq<Call>, twins: seq<Call>) {
    |calls| == |twins| && forall i | 0 <= i < |calls| :: SameCall(calls[i], twins[i])
  }

  lemma {:induction false} SomeOldest(l: Limiter, keys: set<Key>) returns (oldest: Key)
    requires keys != {} && keys <= l.attempts.Keys
    ensures oldest in keys && forall key | key in keys :: l.attempts[oldest].lastSeenAt <= l.attempts[key].lastSeenAt
    decreases |keys|
  {
    var first :| first in keys;
    var rest := keys - {first};
    assert forall key | key in keys :: key == first || key in rest;
    oldest := first;
    if rest != {} {
      var other := SomeOldest(l, rest);
      if l.attempts[other].lastSeenAt < l.attempts[first].lastSeenAt { oldest := other; }
    }
  }

  /** A call to the limiter that cleans up, made to name a client that the other one could evict. */
  lemma TwinCall(a: Limiter, b: Limiter, call: Call) returns (twin: Call)
    requires ForgetsOldest(a, b, call.at) && |b.attempts| <= MAX_TRACKED && Possible(a, call, true)
    ensures SameCall(call, twin) && Possible(b, twin, false)
    ensures Step(a, twin, true) == Step(a, call, true)
    ensures call.Reserve? ==> Answer(a, twin, true) == Answer(a, call, true)
  {
    twin := call;
    if call.Reserve? {
      var c := Cleaned(a, call.at);
      CleanupForgetsOldest(a, b, call.at);
      if MustEvict(c, call.key) {
        FullForgetsNothing(c, b, call.at);
      } else if MustEvict(b, call.key) {
        assert |b.attempts.Keys| == |b.attempts|;
        var victim := SomeOldest(b, b.attempts.Keys);
        twin := Reserve(call.key, call.at, victim);
      }
    }
  }

  /** Every run of the limiter is, but for clients named where none is evicted, a run of the one that never cleans up. */
  lemma {:induction false} TwinRun(calls: seq<Call>) returns (twins: seq<Call>)
    requires LegalCalls(calls, true)
    ensures SameCalls(calls, twins) && LegalCalls(twins, false) && After(twins, true) == After(calls, true)
  {
    hide Step, Possible, ForgetsOldest;
    twins := [];
    if calls != [] {
      var n := |calls| - 1;
      LegalPrefix(calls, true);
      var before := TwinRun(calls[..n]);
      assert n > 0 ==> calls[n - 1].at <= calls[n].at && SameCall(calls[..n][n - 1], before[n - 1]);
      RunsAgree(before, calls[n].at);
      TracksAtMost4096(before, false);
      var twin := TwinCall(After(before, true), After(before, false), calls[n]);
      twins := before + [twin];
      assert twins[..n] == before;
      forall i | 0 <= i <= n ensures SameCall(calls[i], twins[i]) {
        if i < n { assert SameCall(calls[..n][i], before[i]); }
      }
      LegalOneMore(twins, false);
    }
  }

  /** So in every run of the limiter as it is, every call gets the answer of one that never cleans up. */
  lemma CleanupNeverMatters(calls: seq<Call>, next: Call) returns (twins: seq<Call>, twin: Call)
    requires LegalCalls(calls + [next], true) && next.Reserve?
    ensures SameCalls(calls, twins) && SameCall(next, twin) && LegalCalls(twins + [twin], false)
    ensures Answer(After(calls, true), next, true) == Answer(After(twins, false), twin, false)
  {
    hide ForgetsOldest, Step, Answer, Possible, After;
    var all := calls + [next];
    assert all[..|calls|] == calls;
    LegalPrefix(all, true);
    twins := TwinRun(calls);
    assert calls != [] ==>
      all[|calls| - 1].at <= next.at && SameCall(calls[|calls| - 1], twins[|calls| - 1]) by {
      assert calls != [] ==> all[|calls| - 1].at <= all[|calls|].at;
    }
    RunsAgree(twins, next.at);
    TracksAtMost4096(twins, false);
    twin := TwinCall(After(twins, true), After(twins, false), next);
    var both := twins + [twin];
    assert both[..|twins|] == twins;
    assert forall i | 0 <= i < |calls| :: all[i] == calls[i] && SameCall(calls[i], twins[i]);
    LegalOneMore(both, false);
    CleanupChangesNoDecision(twins, twin);
  }

  // ----- How long a block lasts -----

  /** A client that is told to wait is refused for the whole of that time exactly when its window lasts as long. */
  lemma BlockLastsIff(w: Option<Window>, at: Time)
    requires Decide(w, at).Denied? && w.value.startedAt <= at
    ensures
      var wait := Decide(w, at).retryAfter;
      (forall t | at <= t < at + wait :: Decide(Kept(w, at), t).Denied?) <==> at + wait <= w.value.startedAt + RATE_WINDOW
  {
    var wait := Decide(w, at).retryAfter;
    var end := w.value.startedAt + RATE_WINDOW;
    if at + wait > end {
      assert !Decide(Kept(w, at), end).Denied?;
    }
  }

  /** Six attempts at once, a seventh after 59 seconds: told to wait a minute, the client is let in a second later.
      So it goes for every client in a limiter of its own. */
  lemma BlockEndsEarly(key: Key, first: Time) returns (calls: seq<Call>)
    requires key != ""
    ensures
      var seventh, eighth := Reserve(key, first + 59 * SECOND, ""), Reserve(key, first + 60 * SECOND, "");
      && LegalCalls(calls + [seventh] + [eighth], true) && Stays(calls + [seventh] + [eighth], key)
      && Answer(After(calls, true), seventh, true) == Denied(MINUTE)
      && Answer(After(calls + [seventh], true), eighth, true) == Granted
  {
    hide LegalCalls, Stays, After, Grants, Count, Answer;
    NoCalls(key, first);
    calls := FirstGrant([], key, None, first, first, first);
    calls := ManyGrants(calls, key, Window(first, first, None, 1), first, first, 5, first);
    var w := Some(Window(first, first, None, 6));
    OneMoreCall(calls, key, w, first, first + 59 * SECOND);
    OneMoreCall(calls + [Reserve(key, first + 59 * SECOND, "")], key, Kept(w, first + 59 * SECOND), first + 59 * SECOND,
                first + 60 * SECOND);
  }

  /** While its window lasts, a client that comes back early is told what is left of its wait. */
  lemma BlockCountsDown(w: Option<Window>, at: Time, again: Time)
    requires Decide(w, at).Denied? && at <= again < at + Decide(w, at).retryAfter && again < w.value.startedAt + RATE_WINDOW
    ensures Decide(Kept(w, at), again) == Denied(at + Decide(w, at).retryAfter - again)
  {
  }

  // ----- What is forgotten -----

  /** The last cleanup is less than a minute old, and left no client that had not been seen for ten minutes. */
  ghost predicate Tidy(l: Limiter, now: Time) {
    && l.cleanupAt.Some? && l.cleanupAt.value <= now < l.cleanupAt.value + MINUTE
    && forall key | key in l.attempts :: l.cleanupAt.value - l.attempts[key].lastSeenAt < 10 * MINUTE
  }

  lemma ReserveTidies(l: Limiter, call: Call)
    requires call.Reserve? && (l.cleanupAt.Some? ==> l.cleanupAt.value <= call.at)
    requires l.cleanupAt.Some? ==> forall key | key in l.attempts :: l.cleanupAt.value - l.attempts[key].lastSeenAt < 10 * MINUTE
    ensures Tidy(Step(l, call, true), call.at)
  {
    hide Decide;
  }

  ghost predicate EverTidy(l: Limiter, now: Time) {
    if l.cleanupAt.None? then l.attempts == map[]
    else l.cleanupAt.value <= now && forall key | key in l.attempts :: l.cleanupAt.value - l.attempts[key].lastSeenAt < 10 * MINUTE
  }

  lemma {:induction false} CallsTidy(calls: seq<Call>, now: Time)
    requires LegalCalls(calls, true) && (calls != [] ==> calls[|calls| - 1].at <= now)
    ensures EverTidy(After(calls, true), now)
  {
    hide Step, Possible, Tidy;
    if calls != [] {
      var n := |calls| - 1;
      LegalPrefix(calls, true);
      assert n > 0 ==> calls[n - 1].at <= calls[n].at;
      CallsTidy(calls[..n], calls[n].at);
      OneCallTidies(After(calls[..n], true), calls[n], now);
    }
  }

  lemma OneCallTidies(l: Limiter, call: Call, now: Time)
    requires EverTidy(l, call.at) && call.at <= now
    ensures EverTidy(Step(l, call, true), now)
  {
    if call.Reserve? {
      ReserveTidies(l, call);
      hide Step;
    }
  }

  /** In any run, after an attempt no client is left that was not seen for eleven minutes. */
  lemma OldClientsGo(calls: seq<Call>, key: Key)
    requires LegalCalls(calls, true) && calls != [] && calls[|calls| - 1].Reserve? && key in After(calls, true).attempts
    ensures calls[|calls| - 1].at - After(calls, true).attempts[key].lastSeenAt < 11 * MINUTE
  {
    var n := |calls| - 1;
    LegalPrefix(calls, true);
    assert n > 0 ==> calls[n - 1].at <= calls[n].at;
    CallsTidy(calls[..n], calls[n].at);
    ReserveTidies(After(calls[..n], true), calls[n]);
    hide Step;
  }

  // ----- The token bucket of the password checks -----

  datatype Bucket = Bucket(tokens: real, at: Option<Time>)

  function Seconds(duration: int): real {
    duration as real / REFILL as real
  }

  function Min(a: real, b: real): real {
    if a <= b then a else b
  }

  function Refilled(b: Bucket, now: Time): Bucket {
    if b.at.None? then Bucket(BURST, Some(now))
    else if now > b.at.value then Bucket(Min(BURST, b.tokens + Seconds(now - b.at.value)), Some(now))
    else b
  }

  predicate Takes(b: Bucket, now: Time) {
    Refilled(b, now).tokens >= 1.0
  }

  /** reservePasswordAttempt. */
  function TakeToken(b: Bucket, now: Time): Bucket {
    var refilled := Refilled(b, now);
    if refilled.tokens >= 1.0 then refilled.(tokens := refilled.tokens - 1.0) else refilled
  }

  /** What a refused check is told to wait: the time in which the missing part of a token is refilled, cut to
      whole nanoseconds, and at least a millisecond. */
  function RetryAfter(b: Bucket, now: Time): int {
    var wait := ((1.0 - Refilled(b, now).tokens) * REFILL as real).Floor;
    if wait < SECOND / 1000 then SECOND / 1000 else wait
  }

  /** The wait is worth it: with no other check in between, every check later than the wait is granted, and where
      the wait is more than the least one, every earlier check is refused. */
  lemma WaitIsWorthIt(b: Bucket, now: Time, later: Time)
    requires !Takes(b, now) && now <= later && (b.at.Some? ==> b.at.value <= now)
    ensures later > now + RetryAfter(b, now) ==> Takes(TakeToken(b, now), later)
    ensures RetryAfter(b, now) > SECOND / 1000 && later < now + RetryAfter(b, now) ==> !Takes(TakeToken(b, now), later)
    ensures RetryAfter(b, now) >= 1_000_000
  {
    var left := Refilled(b, now).tokens;
    var missing := 1.0 - left;
    var nanos := missing * REFILL as real;
    assert TakeToken(b, now) == Refilled(b, now) && Refilled(b, now).at == Some(now);
    if later > now {
      assert (later - now) as real >= nanos <==> Seconds(later - now) >= missing;
    }
    if later > now + RetryAfter(b, now) {
      assert (later - now) as real >= (nanos.Floor + 1) as real >= nanos;
    }
  }

  function AfterChecks(b: Bucket, times: seq<Time>): Bucket {
    if times == [] then b else TakeToken(AfterChecks(b, times[..|times| - 1]), times[|times| - 1])
  }

  function ChecksGranted(b: Bucket, times: seq<Time>): nat {
    if times == [] then 0
    else
      var n := |times| - 1;
      ChecksGranted(b, times[..n]) + if Takes(AfterChecks(b, times[..n]), times[n]) then 1 else 0
  }

  ghost predicate ValidBucket(b: Bucket) {
    b.at.Some? ==> 0.0 <= b.tokens <= BURST
  }

  /** What has been granted and what is left never exceed the burst and what time has refilled. */
  lemma {:induction false} GrantsAndTokens(b: Bucket, times: seq<Time>)
    requires ValidBucket(b) && times != [] && (b.at.Some? ==> b.at.value <= times[0])
    requires forall i, j | 0 <= i < j < |times| :: times[i] <= times[j]
    ensures
      var n := |times| - 1;
      var after := AfterChecks(b, times);
      && after.at == Some(times[n]) && 0.0 <= after.tokens <= BURST
      && ChecksGranted(b, times) as real + after.tokens <= BURST + Seconds(times[n] - times[0])
  {
    var n := |times| - 1;
    if n == 0 {
      assert times[..0] == [];
    } else {
      assert times[n - 1] <= times[n];
      GrantsAndTokens(b, times[..n]);
      assert Seconds(times[n] - times[0]) == Seconds(times[n - 1] - times[0]) + Seconds(times[n] - times[n - 1]);
      assert Seconds(times[n] - times[n - 1]) >= 0.0;
    }
  }

  /** In any run, whatever the bucket held before, the checks of any t seconds get at most 8 + t grants. */
  lemma EightAndOneASecond(b: Bucket, earlier: seq<Time>, times: seq<Time>)
    requires ValidBucket(b) && times != []
    requires b.at.Some? ==> forall i | 0 <= i < |earlier + times| :: b.at.value <= (earlier + times)[i]
    requires forall i, j | 0 <= i < j < |earlier + times| :: (earlier + times)[i] <= (earlier + times)[j]
    ensures
      ChecksGranted(AfterChecks(b, earlier), times) as real <= BURST + Seconds(times[|times| - 1] - times[0])
  {
    var all := earlier + times;
    assert all[|earlier|] == times[0];
    forall i, j | 0 <= i < j < |times| ensures times[i] <= times[j] {
      assert all[|earlier| + i] <= all[|earlier| + j];
    }
    if earlier != [] {
      forall i, j | 0 <= i < j < |earlier| ensures earlier[i] <= earlier[j] {
        assert all[i] <= all[j];
      }
      assert all[0] == earlier[0];
      GrantsAndTokens(b, earlier);
      assert all[|earlier| - 1] <= all[|earlier|];
    }
    GrantsAndTokens(AfterChecks(b, earlier), times);
  }

  function AtOnce(at: Time, n: nat): (times: seq<Time>)
    ensures |times| == n && forall t | t in times :: t == at
  {
    if n == 0 then [] else AtOnce(at, n - 1) + [at]
  }

  lemma FullBucket(b: Bucket, at: Time)
    requires ValidBucket(b) && (b.at.Some? ==> at - b.at.value >= 8 * SECOND)
    ensures Refilled(b, at) == Bucket(8.0, Some(at))
  {
    if b.at.Some? { assert Seconds(at - b.at.value) >= 8.0; }
  }

  lemma SameInstant(b: Bucket, at: Time)
    requires b.at == Some(at)
    ensures Refilled(b, at) == b
  {
  }

  lemma OneCheckMore(b: Bucket, times: seq<Time>, at: Time)
    ensures
      var before := AfterChecks(b, times);
      && AfterChecks(b, times + [at]) == TakeToken(before, at)
      && ChecksGranted(b, times + [at]) == ChecksGranted(b, times) + if Takes(before, at) then 1 else 0
  {
    assert (times + [at])[..|times|] == times;
  }

  /** The burst is there to be had: of any number of checks at one instant a bucket that is new, or was left alone for
      eight seconds, grants the first eight and no more. */
  lemma {:induction false} BurstIsEight(b: Bucket, at: Time, n: nat)
    requires ValidBucket(b) && (b.at.Some? ==> at - b.at.value >= 8 * SECOND)
    ensures ChecksGranted(b, AtOnce(at, n)) == if n <= 8 then n else 8
    ensures n > 0 ==> AfterChecks(b, AtOnce(at, n)) == Bucket(if n <= 8 then (8 - n) as real else 0.0, Some(at))
    ensures n == 0 ==> AfterChecks(b, AtOnce(at, n)) == b
  {
    if n > 0 {
      BurstIsEight(b, at, n - 1);
      var before, times := AtOnce(at, n - 1), AtOnce(at, n);
      assert times[..n - 1] == before && times[n - 1] == at;
      var bucket := AfterChecks(b, before);
      if n == 1 {
        FullBucket(b, at);
      } else {
        SameInstant(bucket, at);
      }
      hide AfterChecks, ChecksGranted, Refilled;
      OneCheckMore(b, before, at);
    }
  }

  // ----- The limiter object -----

  class LoginLimiter {
    var attempts: map<Key, Window>
    var cleanupAt: Option<Time>
    var passwordTokens: real
    var passwordTokenAt: Option<Time>

    constructor ()
      ensures Clients() == Limiter(map[], None) && Tokens().at == None
    {
      attempts, cleanupAt, passwordTokens, passwordTokenAt := map[], None, 0.0, None;
    }

    function Clients(): Limiter
      reads this
    {
      Limiter(attempts, cleanupAt)
    }

    function Tokens(): Bucket
      reads this
    {
      Bucket(passwordTokens, passwordTokenAt)
    }

    method ForgetOldClients(now: Time)
      modifies this`attempts
      ensures attempts == WithoutOld(old(attempts), now)
    {
      ghost var before := attempts;
      var todo := attempts.Keys;
      while todo != {}
        invariant todo <= attempts.Keys <= before.Keys
        invariant forall key | key in attempts :: attempts[key] == before[key]
        invariant forall key | key in before && key !in todo ::
          key in attempts <==> now - before[key].lastSeenAt < ATTEMPT_RETENTION
      {
        var key :| key in todo;
        todo := todo - {key};
        if now - attempts[key].lastSeenAt >= ATTEMPT_RETENTION {
          attempts := attempts - {key};
        }
      }
    }

    /** An empty key marks that none has been found yet. */
    method OldestClient() returns (oldest: Key)
      requires "" !in attempts && attempts != map[]
      ensures Oldest(Clients(), oldest)
    {
      oldest := "";
      var oldestTime := 0;
      var todo := attempts.Keys;
      while todo != {}
        invariant todo <= attempts.Keys && (oldest == "" ==> todo == attempts.Keys)
        invariant oldest != "" ==>
          && oldest in attempts && oldestTime == attempts[oldest].lastSeenAt
          && forall key | key in attempts && key !in todo :: oldestTime <= attempts[key].lastSeenAt
      {
        var key :| key in todo;
        todo := todo - {key};
        if oldest == "" || attempts[key].lastSeenAt < oldestTime {
          oldest, oldestTime := key, attempts[key].lastSeenAt;
        }
      }
      assert attempts.Keys != {};
    }

    /** reserveLoginAttempt. */
    method ReserveLoginAttempt(clientKey: Key, now: Time) returns (verdict: Verdict, ghost call: Call)
      requires clientKey != "" && "" !in attempts
      modifies this`attempts, this`cleanupAt
      ensures call.Reserve? && call == Reserve(clientKey, now, call.victim) && Possible(old(Clients()), call, true)
      ensures Clients() == Step(old(Clients()), call, true) && verdict == Answer(old(Clients()), call, true)
      ensures "" !in attempts
    {
      if cleanupAt.None? || now - cleanupAt.value >= MINUTE {
        ForgetOldClients(now);
        cleanupAt := Some(now);
      }
      assert Clients() == Cleaned(old(Clients()), now);
      var victim := "";
      if clientKey !in attempts && |attempts| >= MAX_TRACKED {
        victim := OldestClient();
        attempts := attempts - {victim};
      }
      call := Reserve(clientKey, now, victim);
      ghost var kept := Lookup(attempts, clientKey);
      var client := if clientKey in attempts then attempts[clientKey] else Window(now, now, None, 0);
      if now - client.startedAt >= RATE_WINDOW {
        client := Window(now, now, None, 0);
      }
      assert client == Normalized(kept, now);
      if client.blockedUntil.Some? && client.blockedUntil.value > now {
        assert clientKey in attempts && attempts[clientKey := attempts[clientKey]] == attempts;
        return Denied(client.blockedUntil.value - now), call;
      }
      if client.attempts >= MAX_ATTEMPTS {
        client := client.(blockedUntil := Some(now + RATE_WINDOW), lastSeenAt := now);
        attempts := attempts[clientKey := client];
        return Denied(RATE_WINDOW), call;
      }
      client := client.(attempts := client.attempts + 1, lastSeenAt := now);
      attempts := attempts[clientKey := client];
      return Granted, call;
    }

    /** clearLoginAttempt. */
    method ClearLoginAttempt(clientKey: Key, now: Time)
      modifies this`attempts
      ensures Clients() == Step(old(Clients()), Clear(clientKey, now), true)
    {
      attempts := attempts - {clientKey};
    }

    /** reservePasswordAttempt; a refused check is told to wait for the missing part of a token, at
        least a millisecond. */
    method ReservePasswordAttempt(now: Time) returns (granted: bool, retryAfter: int)
      modifies this`passwordTokens, this`passwordTokenAt
      ensures granted == Takes(old(Tokens()), now) && Tokens() == TakeToken(old(Tokens()), now)
      ensures if granted then retryAfter == 0 else retryAfter == RetryAfter(old(Tokens()), now) >= SECOND / 1000
    {
      if passwordTokenAt.None? {
        passwordTokens, passwordTokenAt := BURST, Some(now);
      } else if now > passwordTokenAt.value {
        passwordTokens := Min(BURST, passwordTokens + Seconds(now - passwordTokenAt.value));
        passwordTokenAt := Some(now);
      }
      if passwordTokens >= 1.0 {
        passwordTokens := passwordTokens - 1.0;
        return true, 0;
      }
      var missing := 1.0 - passwordTokens;
      retryAfter := (missing * REFILL as real).Floor;
      if retryAfter < SECOND / 1000 {
        retryAfter := SECOND / 1000;
      }
      return false, retryAfter;
    }
  }
}
