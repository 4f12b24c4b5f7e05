/** Single-use download tokens (internal/pki/download.go): a machine over values for whole runs,
    and the manager itself over key buffers that are zeroed in place. Times are nanoseconds. */
module Downloads {
  import opened ByteStrings
  import Sums

  const LIFETIME := 600_000_000_000

  datatype Payload = Payload(cert: Bytes, key: Bytes, expires: int)

  datatype Outcome = Done | Invalid | Expired | Delivered(cert: Bytes, key: Bytes)

  datatype Event =
    | Create(id: Bytes, cert: Bytes, key: Bytes, now: int)
    | Consume(id: Bytes, now: int)
    | Sweep(now: int)

  type Entries = map<Bytes, Payload>

  function Unexpired(v: Entries, now: int): Entries { map id | id in v && now <= v[id].expires :: v[id] }

  /** Every call holds the mutex from beginning to end, so a run is a sequence of calls. */
  function Step(v: Entries, e: Event): (Outcome, Entries)
  {
    match e
    case Create(id, cert, key, now) => (Done, v[id := Payload(cert, key, now + LIFETIME)])
    case Consume(id, now) =>
      if id !in v then (Invalid, v)
      else if now > v[id].expires then (Expired, v - {id})
      else (Delivered(v[id].cert, v[id].key), v - {id})
    case Sweep(now) => (Done, Unexpired(v, now))
  }

  /** The entries after a run that starts empty, and the outcome of its `i`-th call. */
  function After(es: seq<Event>): Entries
  {
    if es == [] then map[] else Step(After(es[..|es| - 1]), es[|es| - 1]).1
  }

  function OutcomeAt(es: seq<Event>, i: nat): Outcome
    requires i < |es|
  {
    Step(After(es[..i]), es[i]).0
  }

  predicate Creates(e: Event, id: Bytes) { e.Create? && e.id == id }

  /** Random ids never repeat. */
  ghost predicate DistinctIds(es: seq<Event>)
  {
    forall i, j, id :: 0 <= i < |es| && 0 <= j < |es| && Creates(es[i], id) && Creates(es[j], id) ==> i == j
  }

  /** An entry has the contents and expiry of a creation in the run. */
  lemma {:induction false} Origin(es: seq<Event>, id: Bytes) returns (c: nat)
    requires id in After(es)
    ensures c < |es| && Creates(es[c], id) && After(es)[id] == Payload(es[c].cert, es[c].key, es[c].now + LIFETIME)
    decreases |es|
  {
    var n := |es| - 1;
    if Creates(es[n], id) {
      c := n;
    } else {
      c := Origin(es[..n], id);
    }
  }

  /** An entry that is gone and not created again stays gone. */
  lemma {:induction false} StaysGone(es: seq<Event>, i: nat, id: Bytes)
    requires i <= |es| && id !in After(es[..i])
    requires forall j :: i <= j < |es| ==> !Creates(es[j], id)
    ensures id !in After(es)
    decreases |es|
  {
    if i == |es| {
      assert es[..i] == es;
    } else {
      var front := es[..|es| - 1];
      assert front[..i] == es[..i];
      StaysGone(front, i, id);
    }
  }

  /** A delivery hands out exactly what one earlier `Create` stored, no later than ten minutes
      after it. */
  lemma DeliveredAsCreated(es: seq<Event>, i: nat) returns (c: nat)
    requires i < |es| && OutcomeAt(es, i).Delivered?
    ensures c < i && Creates(es[c], es[i].id) && es[i].now <= es[c].now + LIFETIME
    ensures OutcomeAt(es, i) == Delivered(es[c].cert, es[c].key)
  {
    c := Origin(es[..i], es[i].id);
    assert es[..i][c] == es[c];
  }

  /** Each token yields its payload at most once, under every interleaving with the sweep. */
  lemma SingleUse(es: seq<Event>, i: nat, j: nat)
    requires DistinctIds(es) && i < |es| && j < |es|
    requires OutcomeAt(es, i).Delivered? && OutcomeAt(es, j).Delivered? && es[i].id == es[j].id
    ensures i == j
  {
    if i < j {
      OnceOnly(es, i, j);
    } else if j < i {
      OnceOnly(es, j, i);
    }
  }

  lemma OnceOnly(es: seq<Event>, i: nat, j: nat)
    requires DistinctIds(es) && i < j < |es| && OutcomeAt(es, i).Delivered? && es[j] == Consume(es[i].id, es[j].now)
    ensures !OutcomeAt(es, j).Delivered?
  {
    var id := es[i].id;
    var c := DeliveredAsCreated(es, i);
    var run := es[..j];
    assert run[..i + 1] == es[..i + 1] && es[..i + 1][..i] == es[..i];
    forall k | i + 1 <= k < |run| ensures !Creates(run[k], id) {
      assert run[k] == es[k] && Creates(es[c], id);
    }
    StaysGone(run, i + 1, id);
  }

  /** Nobody has consumed the token since it was created. */
  predicate Untouched(es: seq<Event>, c: nat, i: nat, id: Bytes)
    requires c < i <= |es|
  {
    forall j :: c < j < i ==> !Creates(es[j], id) && !(es[j].Consume? && es[j].id == id)
  }

  /** The entry stays until its lifetime is over, whatever sweeps happen. */
  lemma {:induction false} StaysThere(es: seq<Event>, c: nat, i: nat, id: Bytes)
    requires c < i <= |es| && Creates(es[c], id) && Untouched(es, c, i, id)
    requires forall j :: c < j < i ==> es[j].now <= es[c].now + LIFETIME
    ensures id in After(es[..i])
    ensures After(es[..i])[id] == Payload(es[c].cert, es[c].key, es[c].now + LIFETIME)
    decreases i
  {
    assert es[..i][..i - 1] == es[..i - 1] && es[..i][i - 1] == es[i - 1];
    if c < i - 1 {
      StaysThere(es, c, i - 1, id);
    }
  }

  /** An entry that has expired is never handed out. */
  lemma LateIsNotDelivered(es: seq<Event>, c: nat, i: nat)
    requires DistinctIds(es) && c < i < |es| && es[i].Consume? && Creates(es[c], es[i].id)
    requires es[i].now > es[c].now + LIFETIME
    ensures !OutcomeAt(es, i).Delivered?
  {
    if OutcomeAt(es, i).Delivered? {
      var d := DeliveredAsCreated(es, i);
    }
  }

  /** A token is good for ten minutes: consumed for the first time under a clock that does not go
      back, it yields what was created if and only if no more than ten minutes have passed. */
  lemma GoodForTenMinutes(es: seq<Event>, c: nat, i: nat)
    requires DistinctIds(es) && c < i < |es| && es[i].Consume? && Creates(es[c], es[i].id)
    requires Untouched(es, c, i, es[i].id) && forall j :: c < j < i ==> es[j].now <= es[i].now
    ensures OutcomeAt(es, i) == Delivered(es[c].cert, es[c].key) <==> es[i].now <= es[c].now + 600_000_000_000
  {
    if es[i].now <= es[c].now + LIFETIME {
      StaysThere(es, c, i, es[i].id);
    } else {
      LateIsNotDelivered(es, c, i);
    }
  }

  // ----- the manager -----

  datatype Token = Token(cert: array<byte>, key: array<byte>, expires: int, used: bool)

  datatype Result = Ok(cert: array<byte>, key: array<byte>) | TokenInvalid | TokenExpired | TokenUsed

  ghost predicate AllZero(b: array<byte>)
    reads b
  {
    forall i :: 0 <= i < b.Length ==> b[i] == '\0'
  }

  method Zero(b: array<byte>)
    modifies b
    ensures AllZero(b)
  {
    var i := 0;
    while i < b.Length
      invariant 0 <= i <= b.Length && forall j :: 0 <= j < i ==> b[j] == '\0'
    {
      b[i] := '\0';
      i := i + 1;
    }
  }

  method Copy(b: array<byte>) returns (c: array<byte>)
    ensures fresh(c) && c[..] == b[..]
  {
    c := new byte[b.Length](i requires 0 <= i < b.Length reads b => b[i]);
    assert c[..] == b[..];
  }

  /** Live tokens do not share key buffers, and their buffers are not among the removed ones. */
  ghost predicate Apart(tokens: map<Bytes, Token>, retired: set<array<byte>>)
  {
    && (forall a, b :: a in tokens && b in tokens && a != b ==> tokens[a].key != tokens[b].key)
    && (forall a, b :: a in tokens && b in tokens ==> tokens[a].key != tokens[b].cert)
    && (forall a :: a in tokens ==> !tokens[a].used && tokens[a].key !in retired && tokens[a].cert !in retired)
  }

  lemma ApartRemove(tokens: map<Bytes, Token>, retired: set<array<byte>>, id: Bytes)
    requires Apart(tokens, retired) && id in tokens
    ensures Apart(tokens - {id}, retired + {tokens[id].key})
  {
  }

  ghost function PayloadOf(t: Token): Payload
    reads t.cert, t.key
  {
    Payload(t.cert[..], t.key[..], t.expires)
  }

  class DownloadManager {
    var tokens: map<Bytes, Token>
    ghost var retired: set<array<byte>>

    /** Live tokens do not share buffers, and the key buffers of removed tokens are all zero. */
    ghost predicate Valid()
      reads this, retired
    {
      Apart(tokens, retired) && forall b :: b in retired ==> AllZero(b)
    }

    ghost function KeyBuffers(): set<array<byte>>
      reads this
    {
      set id | id in tokens :: tokens[id].key
    }

    ghost function View(): Entries
      reads this, set id | id in tokens :: tokens[id].key, set id | id in tokens :: tokens[id].cert
    {
      map id | id in tokens :: PayloadOf(tokens[id])
    }

    constructor ()
      ensures Valid() && View() == map[] && retired == {}
    {
      tokens := map[];
      retired := {};
    }

    /** The manager takes over the buffers it is given. */
    method CreateToken(id: Bytes, cert: array<byte>, key: array<byte>, now: int)
      requires Valid() && id !in tokens && key != cert && key !in retired && cert !in retired
      requires forall a :: a in tokens ==> key != tokens[a].key && key != tokens[a].cert && cert != tokens[a].key
      modifies this`tokens
      ensures Valid()
      ensures View() == Step(old(View()), Create(id, cert[..], key[..], now)).1
    {
      tokens := tokens[id := Token(cert, key, now + LIFETIME, false)];
    }

    /** Drops a token after zeroing its key. */
    method Remove(id: Bytes)
      requires Valid() && id in tokens
      modifies this, tokens[id].key
      ensures Valid() && View() == old(View()) - {id} && tokens == old(tokens) - {id}
      ensures AllZero(old(tokens[id].key)) && retired == old(retired) + {old(tokens[id].key)}
    {
      var buffer := tokens[id].key;
      ApartRemove(tokens, retired, id);
      ghost var was := tokens;
      Zero(buffer);
      assert forall a :: a in was && a != id ==> PayloadOf(was[a]) == old(PayloadOf(was[a]));
      hide Apart, AllZero, PayloadOf;
      tokens := tokens - {id};
      retired := retired + {buffer};
    }

    /** What the view says about one token. */
    lemma ViewHas(id: Bytes)
      ensures id in tokens <==> id in View()
      ensures id in tokens ==> View()[id] == PayloadOf(tokens[id])
    {
    }

    lemma NotUsed(id: Bytes)
      requires Valid() && id in tokens
      ensures !tokens[id].used
    {
    }

    method ConsumeToken(id: Bytes, now: int) returns (r: Result)
      requires Valid()
      modifies this, if id in tokens then {tokens[id].key} else {}
      ensures Valid() && View() == Step(old(View()), Consume(id, now)).1
      ensures match Step(old(View()), Consume(id, now)).0
              case Delivered(cert, key) =>
                r.Ok? && r.cert[..] == cert && r.key[..] == key && fresh(r.cert) && fresh(r.key)
              case Expired => r.TokenExpired?
              case Invalid => r.TokenInvalid?
              case Done => false
      ensures id in old(tokens) ==> id !in tokens && AllZero(old(tokens[id].key))
    {
      hide Valid, View, AllZero;
      ViewHas(id);
      if id !in tokens { return TokenInvalid; }
      NotUsed(id);
      if now > tokens[id].expires {
        Remove(id);
        return TokenExpired;
      }
      if tokens[id].used { return TokenUsed; }
      var cert, key := CopyToken(id);
      Remove(id);
      return Ok(cert, key);
    }

    method CopyToken(id: Bytes) returns (cert: array<byte>, key: array<byte>)
      requires Valid() && id in tokens
      ensures fresh(cert) && fresh(key) && cert[..] == tokens[id].cert[..] && key[..] == tokens[id].key[..]
      ensures Valid() && View() == old(View()) && id in View() && View()[id] == PayloadOf(tokens[id])
    {
      hide Apart;
      cert := Copy(tokens[id].cert);
      key := Copy(tokens[id].key);
    }

    /** One round of the sweep; `gone` are the tokens it has removed so far. */
    method RemoveExpired(id: Bytes, now: int, ghost was: map<Bytes, Token>, ghost seen: Entries, ghost gone: set<Bytes>)
      requires Valid() && id in tokens && id in seen && tokens == was - gone && View() == seen - gone
      modifies this, tokens[id].key
      ensures Valid() && old(retired) <= retired
      ensures var gone' := if now > seen[id].expires then gone + {id} else gone;
              tokens == was - gone' && View() == seen - gone'
      ensures now > seen[id].expires ==> old(tokens)[id].key in retired
    {
      hide Valid, View, AllZero;
      ViewHas(id);
      Sums.MinusMore(was, gone, id);
      Sums.MinusMore(seen, gone, id);
      if now > tokens[id].expires {
        Remove(id);
      }
    }

    /** The sweep, with its loop over the tokens. */
    method Cleanup(now: int)
      requires Valid()
      modifies this, KeyBuffers()
      ensures Valid() && View() == Step(old(View()), Sweep(now)).1
      ensures forall id :: id in old(tokens) && id !in tokens ==> AllZero(old(tokens[id].key))
    {
      hide Valid, View, AllZero, Judged;
      ghost var was, seen, gone := tokens, View(), {};
      var todo := tokens.Keys;
      ViewKeys();
      JudgedStarts(seen, now);
      while todo != {}
        invariant Valid() && todo <= tokens.Keys && gone <= was.Keys
        invariant tokens == was - gone && View() == seen - gone
        invariant forall id :: id in gone ==> was[id].key in retired
        invariant Judged(seen, todo, gone, now)
        decreases todo
      {
        var id :| id in todo;
        RemoveExpired(id, now, was, seen, gone);
        JudgedStep(seen, todo, gone, id, now);
        gone := if now > seen[id].expires then gone + {id} else gone;
        todo := todo - {id};
      }
      Swept(seen, gone, now);
      forall id | id in was && id !in tokens ensures AllZero(was[id].key) {
        RetiredIsZero(was[id].key);
      }
    }

    lemma ViewKeys()
      ensures View().Keys == tokens.Keys
    {
    }

    lemma RetiredIsZero(b: array<byte>)
      requires Valid() && b in retired
      ensures AllZero(b)
    {
    }
  }

  /** Of the tokens that are not left to look at, exactly the expired ones are gone. */
  ghost predicate Judged(v: Entries, todo: set<Bytes>, gone: set<Bytes>, now: int)
  {
    forall id :: id in v && id !in todo ==> (id in gone <==> now > v[id].expires)
  }

  lemma JudgedStarts(v: Entries, now: int)
    ensures Judged(v, v.Keys, {}, now)
  {
  }

  lemma JudgedStep(v: Entries, todo: set<Bytes>, gone: set<Bytes>, id: Bytes, now: int)
    requires Judged(v, todo, gone, now) && id in v && id in todo && id !in gone
    ensures Judged(v, todo - {id}, if now > v[id].expires then gone + {id} else gone, now)
  {
  }

  lemma Swept(v: Entries, gone: set<Bytes>, now: int)
    requires gone <= v.Keys && Judged(v, {}, gone, now)
    ensures v - gone == Unexpired(v, now)
  {
  }
}
