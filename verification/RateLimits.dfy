// Per-key usage and per-address sign-up windows. Times are whole ticks of a
// monotone clock.
module RateLimits {
  import opened Options

  const SIGNUP_MAX_PER_WINDOW := 10
  const SIGNUP_WINDOW_SECS := 3600
  const MESSAGE_WINDOW_SECS := 60

  datatype Window = Window(count: nat, start: int)

  // A window is restarted only when it is strictly older than its length.
  function Current(w: Window, now: int, length: nat): Window {
    if now - w.start > length then Window(0, now) else w
  }

  predicate Allowed(w: Window, now: int, length: nat, cap: nat) {
    Current(w, now, length).count < cap
  }

  // The window after one request: counted if admitted.
  function After(w: Window, now: int, length: nat, cap: nat): Window {
    var current := Current(w, now, length);
    if current.count < cap then current.(count := current.count + 1) else current
  }

  // --- what a window admits over a whole trace of requests ---

  // An admitted request with the start of the window that admitted it.
  datatype Admission = Admission(time: int, start: int)

  function Admitted(w: Window, requests: seq<int>, length: nat, cap: nat): seq<Admission>
    decreases |requests|
  {
    if requests == [] then []
    else
      var rest := Admitted(After(w, requests[0], length, cap), requests[1..], length, cap);
      if Allowed(w, requests[0], length, cap)
      then [Admission(requests[0], Current(w, requests[0], length).start)] + rest
      else rest
  }

  predicate Monotone(requests: seq<int>) {
    forall i, j :: 0 <= i < j < |requests| ==> requests[i] <= requests[j]
  }

  function CountIn(log: seq<Admission>, from: int, to: int): nat {
    if log == [] then 0 else (if from <= log[0].time <= to then 1 else 0) + CountIn(log[1..], from, to)
  }

  function CountFrom(log: seq<Admission>, start: int): nat {
    if log == [] then 0 else (if log[0].start == start then 1 else 0) + CountFrom(log[1..], start)
  }

  // Admissions lie in their windows, and windows come one after another.
  ghost predicate InWindows(log: seq<Admission>, length: nat) {
    && (forall i :: 0 <= i < |log| ==> log[i].start <= log[i].time <= log[i].start + length)
    && (forall i, j :: 0 <= i < j < |log| ==>
          log[i].time <= log[j].time && (log[i].start == log[j].start || log[i].start + length < log[j].start))
  }

  // Admissions of one window, or of windows that began after it had ended.
  ghost predicate NoneBefore(log: seq<Admission>, time: int, start: int, length: nat) {
    forall i :: 0 <= i < |log| ==> log[i].time >= time && (log[i].start == start || log[i].start > start + length)
  }

  lemma InWindowsCons(a: Admission, rest: seq<Admission>, length: nat)
    requires a.start <= a.time <= a.start + length
    requires InWindows(rest, length) && NoneBefore(rest, a.time, a.start, length)
    ensures InWindows([a] + rest, length)
  {
    var log := [a] + rest;
    forall i, j | 0 <= i < j < |log|
      ensures log[i].time <= log[j].time && (log[i].start == log[j].start || log[i].start + length < log[j].start)
    {
      assert log[j] == rest[j - 1];
      if i > 0 {
        assert log[i] == rest[i - 1];
      }
    }
  }

  lemma {:induction false} AdmissionsAreOrdered(w: Window, requests: seq<int>, length: nat, cap: nat)
    requires Monotone(requests) && (|requests| > 0 ==> w.start <= requests[0])
    ensures InWindows(Admitted(w, requests, length, cap), length)
    ensures |requests| > 0 ==> NoneBefore(Admitted(w, requests, length, cap), requests[0], w.start, length)
    decreases |requests|
  {
    if requests != [] {
      var now := requests[0];
      var current := Current(w, now, length);
      var next := After(w, now, length, cap);
      assert forall j :: 0 <= j < |requests[1..]| ==> requests[1..][j] == requests[j + 1];
      AdmissionsAreOrdered(next, requests[1..], length, cap);
      var rest := Admitted(next, requests[1..], length, cap);
      assert NoneBefore(rest, now, current.start, length);
      if Allowed(w, now, length, cap) {
        InWindowsCons(Admission(now, current.start), rest, length);
      }
    }
  }

  // One window never admits more than its cap: the current one has room for
  // `cap - count` more, later ones start afresh.
  lemma {:induction false} WindowAdmitsAtMostCap(w: Window, requests: seq<int>, length: nat, cap: nat, start: int)
    requires Monotone(requests) && w.count <= cap
    requires |requests| > 0 ==> w.start <= requests[0]
    ensures CountFrom(Admitted(w, requests, length, cap), start) <= if start == w.start then cap - w.count else cap
    decreases |requests|
  {
    if requests != [] {
      var next := After(w, requests[0], length, cap);
      assert forall j :: 0 <= j < |requests[1..]| ==> requests[1..][j] == requests[j + 1];
      WindowAdmitsAtMostCap(next, requests[1..], length, cap, start);
      var rest := Admitted(next, requests[1..], length, cap);
      if next.start != w.start && start == w.start {
        AdmissionsAreOrdered(next, requests[1..], length, cap);
        NothingFrom(rest, start);
      }
    }
  }

  // The window after a whole trace.
  function AfterAll(w: Window, requests: seq<int>, length: nat, cap: nat): Window
    decreases |requests|
  {
    if requests == [] then w else AfterAll(After(w, requests[0], length, cap), requests[1..], length, cap)
  }

  // Nobody is refused early: a request is refused only at a moment whose window has
  // admitted its whole cap, counting what it had admitted before the trace.
  lemma {:induction false} RefusedOnlyWhenFull(w: Window, requests: seq<int>, now: int, length: nat, cap: nat)
    requires Monotone(requests + [now]) && w.start <= (requests + [now])[0]
    requires !Allowed(AfterAll(w, requests, length, cap), now, length, cap)
    ensures cap == 0 || exists start :: start <= now <= start + length && Filled(w, requests, length, cap, start) >= cap
    decreases |requests|
  {
    if requests == [] {
      assert ([] + [now])[0] == now;
      if cap > 0 {
        assert Filled(w, [], length, cap, w.start) >= cap;
      }
    } else {
      var next := After(w, requests[0], length, cap);
      var all := requests + [now];
      assert all[1..] == requests[1..] + [now] && all[0] == requests[0];
      assert forall j :: 0 <= j < |all[1..]| ==> all[1..][j] == all[j + 1];
      RefusedOnlyWhenFull(next, requests[1..], now, length, cap);
      if cap > 0 {
        var start :| start <= now <= start + length && Filled(next, requests[1..], length, cap, start) >= cap;
        FilledGrows(w, requests, length, cap, start);
      }
    }
  }

  // How many requests a window has admitted, its count at the beginning included.
  function Filled(w: Window, requests: seq<int>, length: nat, cap: nat, start: int): nat {
    CountFrom(Admitted(w, requests, length, cap), start) + if start == w.start then w.count else 0
  }

  lemma FilledGrows(w: Window, requests: seq<int>, length: nat, cap: nat, start: int)
    requires requests != []
    ensures var next := After(w, requests[0], length, cap);
            Filled(w, requests, length, cap, start) >= Filled(next, requests[1..], length, cap, start)
  {}

  lemma {:induction false} NothingFrom(log: seq<Admission>, start: int)
    requires forall i :: 0 <= i < |log| ==> log[i].start != start
    ensures CountFrom(log, start) == 0
  {
    if log != [] {
      assert forall i :: 0 <= i < |log[1..]| ==> log[1..][i] == log[i + 1];
      NothingFrom(log[1..], start);
    }
  }

  lemma {:induction false} TwoWindowsCover(log: seq<Admission>, from: int, to: int, a: int, b: int)
    requires forall i :: 0 <= i < |log| && from <= log[i].time <= to ==> log[i].start == a || log[i].start == b
    ensures CountIn(log, from, to) <= CountFrom(log, a) + CountFrom(log, b)
  {
    if log != [] {
      assert forall i :: 0 <= i < |log[1..]| ==> log[1..][i] == log[i + 1];
      TwoWindowsCover(log[1..], from, to, a, b);
    }
  }

  lemma {:induction false} NothingInside(log: seq<Admission>, from: int, to: int)
    requires forall i :: 0 <= i < |log| ==> !(from <= log[i].time <= to)
    ensures CountIn(log, from, to) == 0
  {
    if log != [] {
      assert forall i :: 0 <= i < |log[1..]| ==> log[1..][i] == log[i + 1];
      NothingInside(log[1..], from, to);
    }
  }

  // An interval no longer than a window touches at most two windows: that of
  // its first admission and that of its last.
  lemma IntervalMeetsTwoWindows(log: seq<Admission>, length: nat, from: int, to: int, first: nat, last: nat, i: nat)
    requires InWindows(log, length) && to - from <= length
    requires first <= i <= last < |log|
    requires from <= log[first].time && log[last].time <= to
    ensures log[i].start == log[first].start || log[i].start == log[last].start
  {}

  // Any interval of at most one window length admits at most twice the cap,
  // over every trace of requests.
  lemma WindowBound(w: Window, requests: seq<int>, length: nat, cap: nat, from: int, to: int)
    requires Monotone(requests) && w.count <= cap && to - from <= length
    requires |requests| > 0 ==> w.start <= requests[0]
    ensures CountIn(Admitted(w, requests, length, cap), from, to) <= 2 * cap
  {
    var log := Admitted(w, requests, length, cap);
    if i :| 0 <= i < |log| && from <= log[i].time <= to {
      var first, last := Extremes(log, from, to, i);
      var a, b := log[first].start, log[last].start;
      WindowAdmitsAtMostCap(w, requests, length, cap, a);
      WindowAdmitsAtMostCap(w, requests, length, cap, b);
      AdmissionsAreOrdered(w, requests, length, cap);
      forall k | 0 <= k < |log| && from <= log[k].time <= to
        ensures log[k].start == a || log[k].start == b
      {
        IntervalMeetsTwoWindows(log, length, from, to, first, last, k);
      }
      TwoWindowsCover(log, from, to, a, b);
    } else {
      NothingInside(log, from, to);
    }
  }

  // Indices of the first and the last admission inside an interval.
  lemma Extremes(log: seq<Admission>, from: int, to: int, some: nat) returns (first: nat, last: nat)
    requires some < |log| && from <= log[some].time <= to
    ensures first <= some <= last < |log|
    ensures from <= log[first].time <= to && from <= log[last].time <= to
    ensures forall k :: 0 <= k < |log| && from <= log[k].time <= to ==> first <= k <= last
  {
    first, last := some, some;
    var k := 0;
    while k < |log|
      invariant 0 <= k <= |log|
      invariant first <= some <= last < |log|
      invariant from <= log[first].time <= to && from <= log[last].time <= to
      invariant forall j :: 0 <= j < k && from <= log[j].time <= to ==> first <= j <= last
    {
      if from <= log[k].time <= to {
        first, last := if k < first then k else first, if k > last then k else last;
      }
      k := k + 1;
    }
  }

  // --- the limiter ---

  datatype KeyUsage = KeyUsage(agents: nat, messages: Window)

  function NewUsage(now: int): KeyUsage {
    KeyUsage(0, Window(0, now))
  }

  class RateLimiter {
    var usage: map<string, KeyUsage>
    var signups: map<string, Window>

    constructor ()
      ensures usage == map[] && signups == map[]
    {
      usage, signups := map[], map[];
    }

    ghost function SignupWindow(ip: string, now: int): Window
      reads this
    {
      if ip in signups then signups[ip] else Window(0, now)
    }

    // Usage of a key, as the first access creates it.
    ghost function Usage(key: string, now: int): KeyUsage
      reads this
    {
      if key in usage then usage[key] else NewUsage(now)
    }

    method TryRegisterSignup(ip: string, now: int) returns (allowed: bool)
      modifies this`signups
      ensures allowed == Allowed(old(SignupWindow(ip, now)), now, SIGNUP_WINDOW_SECS, SIGNUP_MAX_PER_WINDOW)
      ensures !allowed <==> ip in old(signups) && now <= old(signups)[ip].start + 3600 && old(signups)[ip].count >= 10
      ensures signups == old(signups)[ip := After(old(SignupWindow(ip, now)), now, SIGNUP_WINDOW_SECS, SIGNUP_MAX_PER_WINDOW)]
    {
      if ip !in signups {
        signups := signups[ip := Window(0, now)];
      }
      if now - signups[ip].start > SIGNUP_WINDOW_SECS {
        signups := signups[ip := Window(0, now)];
      }
      if signups[ip].count >= SIGNUP_MAX_PER_WINDOW {
        return false;
      }
      signups := signups[ip := signups[ip].(count := signups[ip].count + 1)];
      return true;
    }

    method GetOrCreate(key: string, now: int)
      modifies this`usage
      ensures usage == old(usage)[key := old(Usage(key, now))]
    {
      if key !in usage {
        usage := usage[key := NewUsage(now)];
      } else {
        assert usage[key := usage[key]] == usage;
      }
    }

    method CheckMessageRate(key: string, limit: nat, now: int) returns (allowed: bool)
      modifies this`usage
      ensures allowed == Allowed(old(Usage(key, now)).messages, now, MESSAGE_WINDOW_SECS, limit)
      ensures usage == old(usage)[key := old(Usage(key, now)).(
                         messages := Current(old(Usage(key, now)).messages, now, MESSAGE_WINDOW_SECS))]
    {
      GetOrCreate(key, now);
      var u := usage[key];
      if now - u.messages.start > MESSAGE_WINDOW_SECS {
        u := u.(messages := Window(0, now));
        usage := usage[key := u];
      }
      return u.messages.count < limit;
    }

    method IncrementMessage(key: string, now: int)
      modifies this`usage
      ensures usage == old(usage)[key := old(Usage(key, now)).(
                         messages := old(Usage(key, now)).messages.(count := old(Usage(key, now)).messages.count + 1))]
    {
      GetOrCreate(key, now);
      var u := usage[key];
      usage := usage[key := u.(messages := u.messages.(count := u.messages.count + 1))];
    }

    // Check and increment as one step is one request of a window of a minute.
    method AdmitMessage(key: string, limit: nat, now: int) returns (allowed: bool)
      modifies this`usage
      ensures allowed == Allowed(old(Usage(key, now)).messages, now, MESSAGE_WINDOW_SECS, limit)
      ensures !allowed <==> limit == 0 || (key in old(usage) && now <= old(usage)[key].messages.start + 60
                                           && old(usage)[key].messages.count >= limit)
      ensures key in usage
      ensures usage[key].messages == After(old(Usage(key, now)).messages, now, MESSAGE_WINDOW_SECS, limit)
      ensures forall k :: k != key ==> (k in usage <==> k in old(usage)) && (k in usage ==> usage[k] == old(usage)[k])
    {
      allowed := CheckMessageRate(key, limit, now);
      if allowed {
        IncrementMessage(key, now);
      }
    }

    method AddAgent(key: string, now: int)
      modifies this`usage
      ensures usage == old(usage)[key := old(Usage(key, now)).(agents := old(Usage(key, now)).agents + 1)]
      ensures usage[key].agents == if key in old(usage) then old(usage)[key].agents + 1 else 1
    {
      GetOrCreate(key, now);
      usage := usage[key := usage[key].(agents := usage[key].agents + 1)];
    }

    // A count of zero stays zero.
    method RemoveAgent(key: string)
      modifies this`usage
      ensures key !in old(usage) || old(usage)[key].agents == 0 ==> usage == old(usage)
      ensures key in old(usage) && old(usage)[key].agents > 0 ==>
                usage == old(usage)[key := old(usage)[key].(agents := old(usage)[key].agents - 1)]
    {
      if key in usage && usage[key].agents > 0 {
        usage := usage[key := usage[key].(agents := usage[key].agents - 1)];
      }
    }
  }
}
