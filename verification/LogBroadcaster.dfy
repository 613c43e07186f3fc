/** The subscribers of the log streams, hash by hash, and the broadcast of one line to them. */
module LogBroadcaster {

  datatype LogEvent = LogEvent(number: nat, line: string)

  /** A JavaScript `Set` of responses: no duplicates, in the order they registered. */
  ghost predicate IsSet(bucket: seq<nat>) {
    forall i, j :: 0 <= i < j < |bucket| ==> bucket[i] != bucket[j]
  }

  /** The clients that are not among `gone`. */
  function Remaining(bucket: seq<nat>, gone: set<nat>): seq<nat> {
    if bucket == [] then []
    else
      var rest, last := Remaining(bucket[..|bucket| - 1], gone), bucket[|bucket| - 1];
      if last in gone then rest else rest + [last]
  }

  lemma {:induction false} RemainingHolds(bucket: seq<nat>, gone: set<nat>)
    requires IsSet(bucket)
    ensures IsSet(Remaining(bucket, gone))
    ensures forall c :: c in Remaining(bucket, gone) <==> c in bucket && c !in gone
  {
    if bucket == [] {
    } else {
      var rest := Remaining(bucket[..|bucket| - 1], gone);
      RemainingHolds(bucket[..|bucket| - 1], gone);
      assert forall i :: 0 <= i < |rest| ==> rest[i] in rest;
    }
  }

  /** `rest` is `bucket` without the clients that are gone, in the order of `bucket`. */
  ghost predicate IsWithout(bucket: seq<nat>, gone: set<nat>, rest: seq<nat>) {
    && (forall c :: c in rest <==> c in bucket && c !in gone)
    && (forall i, j, a, b | 0 <= i < |rest| && 0 <= j < |rest| && 0 <= a < |bucket| && 0 <= b < |bucket| ::
          rest[i] == bucket[a] && rest[j] == bucket[b] ==> (i < j <==> a < b))
  }

  lemma {:induction false} RemainingIs(bucket: seq<nat>, gone: set<nat>)
    requires IsSet(bucket)
    ensures IsWithout(bucket, gone, Remaining(bucket, gone))
  {
    RemainingHolds(bucket, gone);
    if bucket == [] {
    } else {
      var n := |bucket| - 1;
      var before, rest := Remaining(bucket[..n], gone), Remaining(bucket, gone);
      RemainingIs(bucket[..n], gone);
      RemainingHolds(bucket[..n], gone);
      forall i, j, a, b | 0 <= i < |rest| && 0 <= j < |rest| && 0 <= a < |bucket| && 0 <= b < |bucket|
                          && rest[i] == bucket[a] && rest[j] == bucket[b]
        ensures i < j <==> a < b
      {
        OrderStep(bucket, before, rest, i, a);
        OrderStep(bucket, before, rest, j, b);
      }
    }
  }

  lemma OrderStep(bucket: seq<nat>, before: seq<nat>, rest: seq<nat>, i: nat, a: nat)
    requires bucket != [] && IsSet(bucket)
    requires rest == before || rest == before + [bucket[|bucket| - 1]]
    requires forall c :: c in before ==> c in bucket[..|bucket| - 1]
    requires i < |rest| && a < |bucket| && rest[i] == bucket[a]
    ensures if i < |before| then a < |bucket| - 1 && before[i] == bucket[..|bucket| - 1][a] else i == |before| && a == |bucket| - 1
  {
    var n := |bucket| - 1;
    if i < |before| {
      assert before[i] in before && before[i] in bucket[..n];
      var b :| 0 <= b < n && bucket[..n][b] == before[i];
      assert bucket[b] == bucket[a];
    }
  }

  /** The inbox after an event that the clients `to` get. */
  function Delivered(inbox: map<nat, seq<LogEvent>>, to: seq<nat>, e: LogEvent): map<nat, seq<LogEvent>> {
    map c | c in inbox :: if c in to then inbox[c] + [e] else inbox[c]
  }

  lemma DeliveredToOneMore(inbox: map<nat, seq<LogEvent>>, to: seq<nat>, c: nat, e: LogEvent)
    requires c in inbox && c !in to
    ensures c in Delivered(inbox, to, e) && Delivered(inbox, to, e)[c] == inbox[c]
    ensures Delivered(inbox, to + [c], e) == Delivered(inbox, to, e)[c := inbox[c] + [e]]
  {
  }

  lemma RemainingStep(all: seq<nat>, ended: set<nat>, i: nat)
    requires IsSet(all) && i < |all|
    ensures all[i] !in Remaining(all[..i], ended)
    ensures Remaining(all[..i + 1], ended)
         == if all[i] in ended then Remaining(all[..i], ended) else Remaining(all[..i], ended) + [all[i]]
  {
    assert all[..i + 1][..i] == all[..i];
    RemainingHolds(all[..i], ended);
  }

  /** Writes the event to the clients that are open, and returns those. */
  method WriteToAll(all: seq<nat>, ended: set<nat>, inbox: map<nat, seq<LogEvent>>, e: LogEvent)
      returns (open: seq<nat>, inbox': map<nat, seq<LogEvent>>)
    requires IsSet(all) && forall c :: c in all ==> c in inbox
    ensures open == Remaining(all, ended) && inbox' == Delivered(inbox, open, e)
  {
    open, inbox' := [], inbox;
    assert inbox == Delivered(inbox, [], e);
    for i := 0 to |all|
      invariant open == Remaining(all[..i], ended) && inbox' == Delivered(inbox, open, e)
    {
      hide Remaining, Delivered, IsSet;
      RemainingStep(all, ended, i);
      if all[i] in ended {
        continue;
      }
      assert all[i] in all;
      DeliveredToOneMore(inbox, open, all[i], e);
      inbox' := inbox'[all[i] := inbox'[all[i]] + [e]];
      open := open + [all[i]];
    }
    assert all[..|all|] == all;
  }

  class Broadcaster {
    /** Subscriptions; a hash without subscribers has no entry. */
    var clients: map<string, seq<nat>>
    /** Responses that have ended. */
    var ended: set<nat>
    /** What was written to each response. */
    var inbox: map<nat, seq<LogEvent>>

    ghost predicate Valid()
      reads this
    {
      forall h :: h in clients ==> clients[h] != [] && Bucket(clients[h])
    }

    ghost predicate Bucket(bucket: seq<nat>)
      reads `inbox
    {
      IsSet(bucket) && forall c :: c in bucket ==> c in inbox
    }

    function Subscribers(hash: string): seq<nat>
      reads `clients
    {
      if hash in clients then clients[hash] else []
    }

    constructor ()
      ensures Valid() && clients == map[] && inbox == map[] && ended == {}
    {
      clients, inbox, ended := map[], map[], {};
    }

    method Register(hash: string, client: nat)
      requires Valid()
      modifies `clients, `inbox
      ensures Valid()
      ensures Subscribers(hash) == old(if client in Subscribers(hash) then Subscribers(hash) else Subscribers(hash) + [client])
      ensures forall h :: h != hash ==> Subscribers(h) == old(Subscribers(h))
      ensures inbox == old(if client in inbox then inbox else inbox[client := []])
    {
      var bucket := Subscribers(hash);
      if client !in inbox {
        inbox := inbox[client := []];
      }
      if client !in bucket {
        bucket := bucket + [client];
      }
      clients := clients[hash := bucket];
    }

    /** Stores a bucket, or drops the hash when it is empty. */
    method Keep(hash: string, bucket: seq<nat>)
      requires Valid() && Bucket(bucket)
      modifies `clients
      ensures Valid() && Subscribers(hash) == bucket
      ensures forall h :: h != hash ==> Subscribers(h) == old(Subscribers(h))
    {
      clients := if bucket == [] then clients - {hash} else clients[hash := bucket];
    }

    method Unsubscribe(hash: string, client: nat)
      requires Valid()
      modifies `clients
      ensures Valid() && IsWithout(old(Subscribers(hash)), {client}, Subscribers(hash))
      ensures forall h :: h != hash ==> Subscribers(h) == old(Subscribers(h))
    {
      if hash !in clients {
        return;
      }
      RemainingHolds(clients[hash], {client});
      RemainingIs(clients[hash], {client});
      Keep(hash, Remaining(clients[hash], {client}));
    }

    /**
     * Every subscriber of the hash that is still open gets the line once and stays; ended ones are
     * dropped; nobody else gets anything.
     */
    method Broadcast(hash: string, e: LogEvent)
      requires Valid()
      modifies `clients, `inbox
      ensures Valid() && IsWithout(old(Subscribers(hash)), ended, Subscribers(hash))
      ensures forall h :: h != hash ==> Subscribers(h) == old(Subscribers(h))
      ensures inbox.Keys == old(inbox).Keys
      ensures forall c | c in inbox ::
                inbox[c] == old(inbox)[c] + if c in old(Subscribers(hash)) && c !in ended then [e] else []
    {
      if hash !in clients {
        assert inbox == Delivered(inbox, [], e);
        return;
      }
      var open, written := WriteToAll(clients[hash], ended, inbox, e);
      RemainingHolds(clients[hash], ended);
      RemainingIs(clients[hash], ended);
      inbox := written;
      Keep(hash, open);
    }
  }
}
