/** The login throttle of internal/auth/loginlimiter.go. Times are nanoseconds. */
module LoginThrottle {
  import opened ByteStrings

  const WINDOW := 900_000_000_000
  const MAX_ATTEMPTS := 5

  datatype Window = Window(count: int, resetAt: int)

  type Entries = map<Bytes, Window>

  datatype Attempt = Attempt(key: Bytes, now: int)

  /** A window is over strictly after its reset time. */
  predicate Open(w: Entries, key: Bytes, now: int) { key in w && now <= w[key].resetAt }

  function Allow(w: Entries, t: Attempt): (bool, Entries)
  {
    if !Open(w, t.key, t.now) then (true, w[t.key := Window(1, t.now + WINDOW)])
    else if w[t.key].count >= MAX_ATTEMPTS then (false, w)
    else (true, w[t.key := w[t.key].(count := w[t.key].count + 1)])
  }

  /** The clock never goes back. */
  predicate Ordered(ts: seq<Attempt>, from: int)
  {
    ts == [] || (from <= ts[0].now && Ordered(ts[1..], ts[0].now))
  }

  /** Allowed attempts of a key between two times, both included. */
  function AllowedIn(w: Entries, ts: seq<Attempt>, key: Bytes, from: int, to: int): nat
    decreases |ts|
  {
    if ts == [] then 0
    else
      var (ok, next) := Allow(w, ts[0]);
      (if Counts(ts[0], ok, key, from, to) then 1 else 0) + AllowedIn(next, ts[1..], key, from, to)
  }

  predicate Counts(t: Attempt, ok: bool, key: Bytes, from: int, to: int)
  {
    ok && t.key == key && from <= t.now <= to
  }

  /** Counts stay between one and the maximum. */
  ghost predicate Sane(w: Entries) { forall k :: k in w ==> 1 <= w[k].count <= MAX_ATTEMPTS }

  /** At most how many attempts of `key` can still be allowed in `[from, from + WINDOW]`. A window
      that opened inside the interval lasts to its end; one that opened earlier and reaches into
      it can be followed by one more; an even older one can be followed by two, the first of which
      has already counted one attempt before the interval. */
  function Potential(w: Entries, key: Bytes, now: int, from: int): int
  {
    if now > from + WINDOW then 0
    else if key !in w || w[key].resetAt < from then 2 * MAX_ATTEMPTS - 1
    else if w[key].resetAt < from + WINDOW then 2 * MAX_ATTEMPTS - w[key].count
    else MAX_ATTEMPTS - w[key].count
  }

  /** What is allowed comes out of the potential. */
  lemma PotentialPays(w: Entries, t: Attempt, key: Bytes, now: int, from: int)
    requires Sane(w) && now <= t.now
    ensures var (ok, next) := Allow(w, t);
            && Sane(next)
            && (if Counts(t, ok, key, from, from + WINDOW) then 1 else 0) + Potential(next, key, t.now, from) <=
               Potential(w, key, now, from)
            && 0 <= Potential(next, key, t.now, from)
  {
  }

  lemma {:induction false} WithinPotential(w: Entries, ts: seq<Attempt>, key: Bytes, now: int, from: int)
    requires Sane(w) && Ordered(ts, now)
    ensures AllowedIn(w, ts, key, from, from + WINDOW) <= Potential(w, key, now, from)
    decreases |ts|
  {
    if ts != [] {
      PotentialPays(w, ts[0], key, now, from);
      hide Potential, Allow, Sane, Counts;
      WithinPotential(Allow(w, ts[0]).1, ts[1..], key, ts[0].now, from);
    } else {
      assert 0 <= Potential(w, key, now, from);
    }
  }

  /** In every run, any closed interval of fifteen minutes sees at most nine allowed attempts of a
      key. */
  lemma AtMostNine(ts: seq<Attempt>, now: int, key: Bytes, from: int)
    requires Ordered(ts, now)
    ensures AllowedIn(map[], ts, key, from, from + 900_000_000_000) <= 9
  {
    WithinPotential(map[], ts, key, now, from);
  }

  /** From the attempt that opens a window on, the window allows at most five. */
  lemma AtMostFivePerWindow(w: Entries, ts: seq<Attempt>)
    requires Sane(w) && ts != [] && Ordered(ts, ts[0].now) && !Open(w, ts[0].key, ts[0].now)
    ensures AllowedIn(w, ts, ts[0].key, ts[0].now, ts[0].now + 900_000_000_000) <= 5
  {
    PotentialPays(w, ts[0], ts[0].key, ts[0].now, ts[0].now);
    WithinPotential(Allow(w, ts[0]).1, ts[1..], ts[0].key, ts[0].now, ts[0].now);
  }

  /** All attempts of a key between two times, allowed or not. */
  function AttemptsIn(ts: seq<Attempt>, key: Bytes, from: int, to: int): nat
  {
    if ts == [] then 0
    else (if Counts(ts[0], true, key, from, to) then 1 else 0) + AttemptsIn(ts[1..], key, from, to)
  }

  /** While a window is open it allows exactly what is left of it. */
  lemma {:induction false} OpenWindow(w: Entries, ts: seq<Attempt>, key: Bytes, from: int)
    requires Sane(w) && key in w && Ordered(ts, from)
    ensures var left := MAX_ATTEMPTS - w[key].count;
            var tries := AttemptsIn(ts, key, from, w[key].resetAt);
            AllowedIn(w, ts, key, from, w[key].resetAt) == if tries <= left then tries else left
    decreases |ts|
  {
    if ts != [] {
      var t := ts[0];
      var (ok, next) := Allow(w, t);
      PotentialPays(w, t, key, from, from);
      if t.now > w[key].resetAt {
        NoneAfter(w, ts, key, from, w[key].resetAt);
      } else {
        OrderedFrom(ts[1..], from, t.now);
        OpenWindow(next, ts[1..], key, from);
      }
    }
  }

  lemma OrderedFrom(ts: seq<Attempt>, from: int, later: int)
    requires Ordered(ts, later) && from <= later
    ensures Ordered(ts, from)
  {
  }

  /** Attempts after the end do not count. */
  lemma {:induction false} NoneAfter(w: Entries, ts: seq<Attempt>, key: Bytes, from: int, to: int)
    requires ts == [] || (ts[0].now > to && Ordered(ts[1..], ts[0].now))
    ensures AllowedIn(w, ts, key, from, to) == 0 && AttemptsIn(ts, key, from, to) == 0
    decreases |ts|
  {
    if ts != [] {
      hide Allow;
      NoneAfter(Allow(w, ts[0]).1, ts[1..], key, from, to);
    }
  }

  /** A window, exactly: of the attempts of a key in the fifteen minutes from the one that opens a
      window, the first five are allowed and no others. */
  lemma WindowExactly(w: Entries, ts: seq<Attempt>)
    requires Sane(w) && ts != [] && Ordered(ts, ts[0].now) && !Open(w, ts[0].key, ts[0].now)
    ensures var end := ts[0].now + 900_000_000_000;
            var tries := AttemptsIn(ts, ts[0].key, ts[0].now, end);
            AllowedIn(w, ts, ts[0].key, ts[0].now, end) == if tries <= 5 then tries else 5
  {
    PotentialPays(w, ts[0], ts[0].key, ts[0].now, ts[0].now);
    OpenWindow(Allow(w, ts[0]).1, ts[1..], ts[0].key, ts[0].now);
  }

  /** An attempt more than fifteen minutes after the last one that opened a window, or the first one
      ever, is allowed and opens a window. */
  lemma FreshAttemptAllowed(w: Entries, t: Attempt)
    requires !Open(w, t.key, t.now)
    ensures Allow(w, t).0 && Open(Allow(w, t).1, t.key, t.now + 900_000_000_000)
    ensures !Open(Allow(w, t).1, t.key, t.now + 900_000_000_001)
    ensures forall k :: k != t.key ==> (k in Allow(w, t).1 <==> k in w)
    ensures forall k :: k != t.key && k in w ==> Allow(w, t).1[k] == w[k]
  {
  }

  function Repeat(key: Bytes, now: int, n: nat): seq<Attempt>
  {
    if n == 0 then [] else [Attempt(key, now)] + Repeat(key, now, n - 1)
  }

  lemma {:induction false} RepeatOrdered(key: Bytes, now: int, n: nat, more: seq<Attempt>)
    requires Ordered(more, now)
    ensures Ordered(Repeat(key, now, n) + more, now)
  {
    if n == 0 {
      assert Repeat(key, now, 0) + more == more;
    } else {
      RepeatOrdered(key, now, n - 1, more);
      assert (Repeat(key, now, n) + more)[1..] == Repeat(key, now, n - 1) + more;
    }
  }

  /** A burst inside an open window is allowed until the window is full. */
  lemma {:induction false} BurstAllowed(
    w: Entries, key: Bytes, now: int, n: nat, more: seq<Attempt>, from: int, to: int)
    requires Open(w, key, now) && w[key].count + n <= MAX_ATTEMPTS && from <= now <= to
    ensures var full := w[key := w[key].(count := w[key].count + n)];
            AllowedIn(w, Repeat(key, now, n) + more, key, from, to) == n + AllowedIn(full, more, key, from, to)
    decreases n
  {
    if n == 0 {
      assert Repeat(key, now, 0) + more == more;
      assert w[key := w[key].(count := w[key].count + 0)] == w;
    } else {
      var next := Allow(w, Attempt(key, now)).1;
      assert (Repeat(key, now, n) + more)[1..] == Repeat(key, now, n - 1) + more;
      BurstAllowed(next, key, now, n - 1, more, from, to);
      assert next[key := next[key].(count := next[key].count + (n - 1))] ==
             w[key := w[key].(count := w[key].count + n)];
    }
  }

  /** Nine is reached: one attempt, four more as the window ends, five as the next one begins. */
  lemma NineIsReached(key: Bytes, start: int) returns (ts: seq<Attempt>)
    ensures Ordered(ts, start) && |ts| == 10
    ensures AllowedIn(map[], ts, key, start + 900_000_000_000, start + 1_800_000_000_000) == 9
  {
    var last, next := start + WINDOW, start + WINDOW + 1;
    var tail := [Attempt(key, next)] + Repeat(key, next, 4);
    var body := Repeat(key, last, 4) + tail;
    ts := [Attempt(key, start)] + body;
    assert Repeat(key, next, 4) + [] == Repeat(key, next, 4);
    RepeatOrdered(key, next, 4, []);
    assert tail[1..] == Repeat(key, next, 4);
    RepeatOrdered(key, last, 4, tail);
    assert ts[1..] == body;
    RepeatLength(key, last, 4);
    RepeatLength(key, next, 4);
    var w := Allow(map[], Attempt(key, start)).1;
    BurstAllowed(w, key, last, 4, tail, last, start + 2 * WINDOW);
    var full := w[key := Window(5, start + WINDOW)];
    var w' := Allow(full, Attempt(key, next)).1;
    BurstAllowed(w', key, next, 4, [], last, start + 2 * WINDOW);
  }

  lemma {:induction false} RepeatLength(key: Bytes, now: int, n: nat)
    ensures |Repeat(key, now, n)| == n
  {
    if n > 0 { RepeatLength(key, now, n - 1); }
  }

  class LoginLimiter {
    var entries: Entries

    constructor ()
      ensures entries == map[]
    {
      entries := map[];
    }

    method AllowAttempt(key: Bytes, now: int) returns (ok: bool)
      modifies this
      ensures (ok, entries) == Allow(old(entries), Attempt(key, now))
    {
      if key !in entries || now > entries[key].resetAt {
        entries := entries[key := Window(1, now + WINDOW)];
        return true;
      }
      if entries[key].count >= MAX_ATTEMPTS {
        return false;
      }
      entries := entries[key := entries[key].(count := entries[key].count + 1)];
      return true;
    }
  }
}
