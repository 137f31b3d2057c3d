/** The mock API's sign-in throttle: five wrong attempts pause an email for thirty seconds. Emails
    are already normalised; the clock is a parameter in milliseconds and never goes back. */
module LocalAuth {
  import opened Options

  const MAX_ATTEMPTS := 5
  const LOCKOUT_MS := 30000

  datatype User = User(id: string, password: string)
  datatype Attempts = Attempts(count: nat, until: nat)

  type Users = map<string, User>
  type Throttle = map<string, Attempts>

  datatype Response = RateLimited(retryAfter: nat) | InvalidCredentials | SignedIn(userId: string)

  datatype Try = Try(email: string, password: string, now: nat)

  // ---- One attempt -----------------------------------------------------------------------------

  /** `Math.ceil(ms / 1000)`. */
  function CeilSeconds(ms: nat): nat {
    (ms + 999) / 1000
  }

  function Respond(users: Users, throttle: Throttle, t: Try): Response {
    if t.email in throttle && throttle[t.email].until > t.now then
      RateLimited(CeilSeconds(throttle[t.email].until - t.now))
    else if t.email !in users || users[t.email].password != t.password then InvalidCredentials
    else SignedIn(users[t.email].id)
  }

  /** The failures counted so far, with an expired pause counting as none. */
  function Counted(throttle: Throttle, t: Try): nat {
    if t.email !in throttle then 0
    else
      var record := throttle[t.email];
      if record.until > 0 && record.until <= t.now then 0 else record.count
  }

  function Throttled(users: Users, throttle: Throttle, t: Try): Throttle {
    match Respond(users, throttle, t)
    case RateLimited(_) => throttle
    case SignedIn(_) => throttle - {t.email}
    case InvalidCredentials =>
      var count := Counted(throttle, t) + 1;
      throttle[t.email := Attempts(count, if count >= MAX_ATTEMPTS then t.now + LOCKOUT_MS else 0)]
  }

  class Auth {
    var users: Users
    var tokens: map<string, string>
    var attempts: Throttle

    constructor ()
      ensures users == map[] && tokens == map[] && attempts == map[]
    {
      users, tokens, attempts := map[], map[], map[];
    }

    /** `login`; `token` is the random token a success would issue. */
    method Login(email: string, password: string, now: nat, token: string) returns (r: Response)
      modifies this
      ensures r == Respond(old(users), old(attempts), Try(email, password, now))
      ensures attempts == Throttled(old(users), old(attempts), Try(email, password, now))
      ensures users == old(users)
      ensures tokens == if r.SignedIn? then old(tokens)[token := r.userId] else old(tokens)
    {
      var record := if email in attempts then Some(attempts[email]) else None;
      if record.Some? && record.value.until > now {
        return RateLimited(CeilSeconds(record.value.until - now));
      }
      if email !in users || users[email].password != password {
        var expired := record.Some? && record.value.until > 0 && record.value.until <= now;
        var previous := if expired || record.None? then 0 else record.value.count;
        var count := previous + 1;
        attempts := attempts[email := Attempts(count, if count >= MAX_ATTEMPTS then now + LOCKOUT_MS else 0)];
        return InvalidCredentials;
      }
      attempts := attempts - {email};
      tokens := tokens[token := users[email].id];
      return SignedIn(users[email].id);
    }
  }

  // ---- Runs ------------------------------------------------------------------------------------

  /** Times never go back, and none is before `since`. */
  ghost predicate Ordered(tries: seq<Try>, since: nat) {
    && (forall i :: 0 <= i < |tries| ==> since <= tries[i].now)
    && (forall i, j :: 0 <= i < j < |tries| ==> tries[i].now <= tries[j].now)
  }

  function Trace(users: Users, throttle: Throttle, tries: seq<Try>): (rs: seq<Response>)
    ensures |rs| == |tries|
    decreases |tries|
  {
    if tries == [] then []
    else [Respond(users, throttle, tries[0])] + Trace(users, Throttled(users, throttle, tries[0]), tries[1..])
  }

  /** What the throttle looks like at time `since`: a pause is pending exactly when five failures
      are counted, and it ends at most thirty seconds from then. */
  ghost predicate Valid(throttle: Throttle, since: nat) {
    forall e :: e in throttle ==>
      && 1 <= throttle[e].count <= MAX_ATTEMPTS
      && (throttle[e].until == 0 <==> throttle[e].count < MAX_ATTEMPTS)
      && throttle[e].until <= since + LOCKOUT_MS
  }

  lemma StepValid(users: Users, throttle: Throttle, t: Try, since: nat)
    requires Valid(throttle, since) && since <= t.now
    ensures Valid(Throttled(users, throttle, t), t.now)
  {
  }

  /** The seconds announced are between 1 and 30; waiting that long lifts the pause, one second less
      does not. */
  lemma RetryAfterTight(users: Users, throttle: Throttle, t: Try, since: nat)
    requires Valid(throttle, since) && since <= t.now
    requires Respond(users, throttle, t).RateLimited?
    ensures
      var s := Respond(users, throttle, t).retryAfter;
      && 1 <= s <= 30
      && !Respond(users, throttle, t.(now := t.now + s * 1000)).RateLimited?
      && Respond(users, throttle, t.(now := t.now + (s - 1) * 1000)).RateLimited?
  {
  }

  // ---- The rate bound --------------------------------------------------------------------------

  /** The times at which a password for `email` was evaluated and refused. */
  function Failures(users: Users, throttle: Throttle, tries: seq<Try>, email: string): seq<nat>
    decreases |tries|
  {
    if tries == [] then []
    else
      var rest := Failures(users, Throttled(users, throttle, tries[0]), tries[1..], email);
      var failed := tries[0].email == email && Respond(users, throttle, tries[0]).InvalidCredentials?;
      if failed then [tries[0].now] + rest else rest
  }

  predicate SignsIn(users: Users, throttle: Throttle, tries: seq<Try>, email: string)
    decreases |tries|
  {
    tries != [] &&
    ((tries[0].email == email && Respond(users, throttle, tries[0]).SignedIn?)
     || SignsIn(users, Throttled(users, throttle, tries[0]), tries[1..], email))
  }

  function CountOf(throttle: Throttle, email: string): nat {
    if email in throttle then throttle[email].count else 0
  }

  function UntilOf(throttle: Throttle, email: string): nat {
    if email in throttle then throttle[email].until else 0
  }

  /** Failure times come in groups of five counted from `count`; a group starts only after the pause
      of the one before: `until` for the first failure, thirty seconds for the later ones. */
  ghost predicate Grouped(times: seq<nat>, count: nat, until: nat, since: nat) {
    && (forall i :: 0 <= i < |times| ==> since <= times[i])
    && (forall i, j :: 0 <= i < j < |times| ==> times[i] <= times[j])
    && (|times| > 0 && count > 0 && count % MAX_ATTEMPTS == 0 ==> until <= times[0])
    && (forall i :: 0 < i < |times| && (count + i) % MAX_ATTEMPTS == 0 ==> times[i - 1] + LOCKOUT_MS <= times[i])
  }

  lemma GroupedStep(users: Users, throttle: Throttle, t: Try, times: seq<nat>, email: string, since: nat)
    requires Valid(throttle, since) && since <= t.now
    requires !(t.email == email && Respond(users, throttle, t).SignedIn?)
    requires
      var next := Throttled(users, throttle, t);
      Grouped(times, CountOf(next, email), UntilOf(next, email), t.now)
    ensures
      var failed := t.email == email && Respond(users, throttle, t).InvalidCredentials?;
      Grouped(if failed then [t.now] + times else times, CountOf(throttle, email), UntilOf(throttle, email), since)
  {
  }

  lemma {:induction false} FailuresGrouped(users: Users, throttle: Throttle, tries: seq<Try>, email: string, since: nat)
    requires Valid(throttle, since) && Ordered(tries, since)
    requires !SignsIn(users, throttle, tries, email)
    ensures Grouped(Failures(users, throttle, tries, email), CountOf(throttle, email), UntilOf(throttle, email), since)
    decreases |tries|
  {
    if tries != [] {
      var t, next := tries[0], Throttled(users, throttle, tries[0]);
      StepValid(users, throttle, t, since);
      FailuresGrouped(users, next, tries[1..], email, t.now);
      GroupedStep(users, throttle, t, Failures(users, next, tries[1..], email), email, since);
    }
  }

  /** Among six failures in a row there is a pause. */
  lemma SixSpanAPause(times: seq<nat>, count: nat, until: nat, since: nat, i: nat)
    requires Grouped(times, count, until, since) && i + MAX_ATTEMPTS < |times|
    ensures times[i] + LOCKOUT_MS <= times[i + MAX_ATTEMPTS]
  {
    var j := i + MAX_ATTEMPTS - (count + i) % MAX_ATTEMPTS;
    assert i < j <= i + MAX_ATTEMPTS && (count + j) % MAX_ATTEMPTS == 0;
    assert times[j - 1] + LOCKOUT_MS <= times[j];
  }

  lemma {:induction false} PausesAddUp(times: seq<nat>, count: nat, until: nat, since: nat, i: nat, k: nat)
    requires Grouped(times, count, until, since) && i + MAX_ATTEMPTS * k < |times|
    ensures times[i] + LOCKOUT_MS * k <= times[i + MAX_ATTEMPTS * k]
  {
    if k > 0 {
      PausesAddUp(times, count, until, since, i, k - 1);
      SixSpanAPause(times, count, until, since, i + MAX_ATTEMPTS * (k - 1));
    }
  }

  /** The failures in a half-open window. */
  function Within(times: seq<nat>, from: nat, to: nat): set<nat> {
    set i: nat | i < |times| && from <= times[i] < to
  }

  lemma {:induction false} AtMostRange(s: set<nat>, lo: nat, n: nat)
    requires forall i :: i in s ==> lo <= i < lo + n
    ensures |s| <= n
  {
    if n == 0 {
      assert s == {};
    } else {
      var rest := s - {lo + n - 1};
      AtMostRange(rest, lo, n - 1);
      assert s <= rest + {lo + n - 1};
      assert |s| <= |rest| + 1;
    }
  }

  /** Between successful sign-ins, any half-open window of `k` times thirty seconds sees at most `5k`
      evaluated failures for one email, whatever is tried meanwhile for others. */
  lemma RateBound(users: Users, throttle: Throttle, tries: seq<Try>, email: string, since: nat, from: nat, k: nat)
    requires Valid(throttle, since) && Ordered(tries, since)
    requires !SignsIn(users, throttle, tries, email)
    ensures |Within(Failures(users, throttle, tries, email), from, from + LOCKOUT_MS * k)| <= MAX_ATTEMPTS * k
  {
    var times := Failures(users, throttle, tries, email);
    var count, until := CountOf(throttle, email), UntilOf(throttle, email);
    var inside := Within(times, from, from + LOCKOUT_MS * k);
    FailuresGrouped(users, throttle, tries, email, since);
    if inside != {} {
      var first := Least(inside);
      var end := first + MAX_ATTEMPTS * k;
      if end < |times| {
        PausesAddUp(times, count, until, since, first, k);
        assert forall j :: end <= j < |times| ==> times[end] <= times[j];
      }
      assert forall j :: j in inside ==> first <= j < end;
      AtMostRange(inside, first, MAX_ATTEMPTS * k);
    }
  }

  lemma {:induction false} Least(s: set<nat>) returns (m: nat)
    requires s != {}
    ensures m in s && forall i :: i in s ==> m <= i
    decreases |s|
  {
    var x :| x in s;
    var rest := s - {x};
    assert s == rest + {x};
    if rest == {} {
      m := x;
    } else {
      var y := Least(rest);
      m := if x < y then x else y;
    }
  }

  // ---- What the answers reveal -----------------------------------------------------------------

  /** Two worlds that differ only in whether an account exists answer a sequence of attempts alike,
      Retry-After included, exactly when that account is never signed in to. */
  lemma {:induction false} AccountIndistinguishableIff(users: Users, throttle: Throttle, tries: seq<Try>, email: string)
    requires email in users
    ensures Trace(users, throttle, tries) == Trace(users - {email}, throttle, tries) <==>
            !SignsIn(users, throttle, tries, email)
    decreases |tries|
  {
    if tries != [] {
      var t, without := tries[0], users - {email};
      var here, there := Trace(users, throttle, tries), Trace(without, throttle, tries);
      if t.email == email && Respond(users, throttle, t).SignedIn? {
        assert here[0] != there[0];
      } else {
        var next := Throttled(users, throttle, t);
        assert Respond(without, throttle, t) == Respond(users, throttle, t);
        assert Throttled(without, throttle, t) == next;
        AccountIndistinguishableIff(users, next, tries[1..], email);
        assert here[1..] == Trace(users, next, tries[1..]) && there[1..] == Trace(without, next, tries[1..]);
        assert here == here[..1] + here[1..] && there == there[..1] + there[1..];
      }
    }
  }

  // ---- Who is signed in ------------------------------------------------------------------------

  /** The attempt names an account and gives its password. */
  predicate RightPassword(users: Users, t: Try) {
    t.email in users && users[t.email].password == t.password
  }

  /** Signed in, and as whom: the account exists, its password is the one given, and no pause runs. */
  lemma SignedInIff(users: Users, throttle: Throttle, t: Try, id: string)
    ensures Respond(users, throttle, t) == SignedIn(id) <==>
            && (t.email in throttle ==> throttle[t.email].until <= t.now)
            && t.email in users && users[t.email] == User(id, t.password)
  {
  }

  // ---- The same from the history alone ---------------------------------------------------------

  /** Every fifth failure since the last sign-in pauses the email for thirty seconds. */
  predicate Paused(streak: seq<nat>, now: nat) {
    streak != [] && |streak| % 5 == 0 && now < streak[|streak| - 1] + 30000
  }

  /** The failures for `email` since its last sign-in, leaving out attempts made during a pause. */
  ghost function Streak(users: Users, history: seq<Try>, email: string): seq<nat>
    decreases |history|
  {
    if history == [] then []
    else
      var last := history[|history| - 1];
      var before := Streak(users, history[..|history| - 1], email);
      if last.email != email || Paused(before, last.now) then before
      else if RightPassword(users, last) then []
      else before + [last.now]
  }

  /** The throttle after a history of attempts. */
  function Afterwards(users: Users, history: seq<Try>): Throttle
    decreases |history|
  {
    if history == [] then map[]
    else Throttled(users, Afterwards(users, history[..|history| - 1]), history[|history| - 1])
  }

  /** What the throttle keeps of a streak: its length up to the last pause, and when that pause ends. */
  ghost predicate Summarises(throttle: Throttle, streak: seq<nat>, email: string) {
    if streak == [] then email !in throttle
    else
      && email in throttle
      && throttle[email].count == (|streak| - 1) % 5 + 1
      && throttle[email].until == if |streak| % 5 == 0 then streak[|streak| - 1] + 30000 else 0
  }

  lemma SummaryStep(users: Users, throttle: Throttle, streak: seq<nat>, t: Try)
    requires Summarises(throttle, streak, t.email)
    ensures
      var next := if Paused(streak, t.now) then streak
                  else if RightPassword(users, t) then [] else streak + [t.now];
      Summarises(Throttled(users, throttle, t), next, t.email)
  {
  }

  lemma {:induction false} ThrottleSummarises(users: Users, history: seq<Try>, email: string)
    ensures Summarises(Afterwards(users, history), Streak(users, history, email), email)
    decreases |history|
  {
    if history != [] {
      var front, last := history[..|history| - 1], history[|history| - 1];
      ThrottleSummarises(users, front, email);
      if last.email == email {
        SummaryStep(users, Afterwards(users, front), Streak(users, front, email), last);
      }
    }
  }

  /** After any history of attempts, from an empty throttle, an attempt is signed in exactly when its
      password is right and no fifth failure in a row lies less than thirty seconds back; it is refused
      as wrong exactly when the password is not right and no such failure does; and otherwise it is told
      to wait until thirty seconds after that failure. */
  lemma AnswersFollowHistory(users: Users, history: seq<Try>, t: Try)
    ensures
      var streak, r := Streak(users, history, t.email), Respond(users, Afterwards(users, history), t);
      && (r.SignedIn? <==> !Paused(streak, t.now) && RightPassword(users, t))
      && (r.SignedIn? ==> users[t.email] == User(r.userId, t.password))
      && (r.InvalidCredentials? <==> !Paused(streak, t.now) && !RightPassword(users, t))
      && (r.RateLimited? <==> Paused(streak, t.now))
      && (r.RateLimited? ==>
            var wait := streak[|streak| - 1] + 30000 - t.now;
            1000 * (r.retryAfter - 1) < wait <= 1000 * r.retryAfter)
  {
    ThrottleSummarises(users, history, t.email);
  }

  /** The answers of a whole run are those given after each part of it. */
  lemma {:induction false} TraceAt(users: Users, history: seq<Try>, more: seq<Try>, i: nat)
    requires i < |more|
    ensures Trace(users, Afterwards(users, history), more)[i]
         == Respond(users, Afterwards(users, history + more[..i]), more[i])
    decreases |more|
  {
    if i == 0 {
      assert history + more[..0] == history;
    } else {
      var longer := history + [more[0]];
      assert longer[..|history|] == history;
      TraceAt(users, longer, more[1..], i - 1);
      assert longer + more[1..][..i - 1] == history + more[..i];
    }
  }
}
