/** The store of the memcached example: hash shards that together are one map, and compare-and-swap
    tokens from one global counter. Each operation runs under its shard's lock and is one step. */
module Memcache {
  import opened Options

  const SHARDS := 4096
  const CRLF := "\r\n"

  datatype Item = Item(key: string, flags: nat, exptime: int, value: string, cas: int)

  datatype Policy = Set | Add | Replace | Append | Prepend | Cas

  predicate EndsWithCRLF(value: string) {
    |value| >= 2 && value[|value| - 2..] == CRLF
  }

  /** The value without its line end. */
  function Body(value: string): string
    requires |value| >= 2
  {
    value[..|value| - 2]
  }

  // ----- one map -----

  /** What happened to the store: an item went in under a fresh token, or a key went out. */
  datatype Event = Stored(item: Item) | Deleted(key: string)

  datatype Cache = Cache(table: map<string, Item>, counter: int, events: seq<Event>)

  const EMPTY := Cache(map[], 0, [])

  function Put(c: Cache, item: Item): Cache {
    var numbered := item.(cas := c.counter + 1);
    Cache(c.table[item.key := numbered], c.counter + 1, c.events + [Stored(numbered)])
  }

  /** When a store under a policy is accepted. */
  predicate Accepts(c: Cache, item: Item, policy: Policy) {
    match policy
    case Set => true
    case Add => item.key !in c.table
    case Replace => item.key in c.table
    case Append => item.key in c.table
    case Prepend => item.key in c.table
    case Cas => item.key in c.table && c.table[item.key].cas == item.cas
  }

  /** The item that an accepted store puts in, but for its token. */
  function Incoming(c: Cache, item: Item, policy: Policy): Item
    requires Accepts(c, item, policy) && EndsWithCRLF(item.value)
    requires item.key in c.table ==> EndsWithCRLF(c.table[item.key].value)
  {
    if policy.Append? || policy.Prepend? then
      var was := c.table[item.key];
      was.(key := item.key,
           value := if policy.Append? then Body(was.value) + item.value else Body(item.value) + was.value)
    else item
  }

  function Store(c: Cache, item: Item, policy: Policy): Cache
    requires EndsWithCRLF(item.value)
    requires item.key in c.table ==> EndsWithCRLF(c.table[item.key].value)
  {
    if Accepts(c, item, policy) then Put(c, Incoming(c, item, policy)) else c
  }

  function Delete(c: Cache, key: string): Cache {
    if key in c.table then Cache(c.table - {key}, c.counter, c.events + [Deleted(key)]) else c
  }

  // ----- tokens -----

  predicate Touches(e: Event, key: string) {
    match e
    case Stored(item) => item.key == key
    case Deleted(k) => k == key
  }

  /** The last event on a key. */
  function Last(events: seq<Event>, key: string): Option<Event> {
    if events == [] then None
    else if Touches(events[|events| - 1], key) then Some(events[|events| - 1])
    else Last(events[..|events| - 1], key)
  }

  /** How many tokens were handed out. */
  function Stores(events: seq<Event>): nat {
    if events == [] then 0 else Stores(events[..|events| - 1]) + if events[|events| - 1].Stored? then 1 else 0
  }

  ghost predicate EventsNumbered(events: seq<Event>) {
    forall i :: 0 <= i < |events| && events[i].Stored? ==> events[i].item.cas == Stores(events[..i + 1])
  }

  /** The table is what the last events left, and tokens number the stores from 1. */
  ghost predicate Inv(c: Cache) {
    && c.counter == Stores(c.events) && EventsNumbered(c.events)
    && (forall key :: key in c.table <==> Last(c.events, key).Some? && Last(c.events, key).value.Stored?)
    && (forall key :: key in c.table ==> Last(c.events, key) == Some(Stored(c.table[key])))
    && (forall key :: key in c.table ==> c.table[key].key == key && EndsWithCRLF(c.table[key].value))
  }

  lemma {:induction false} StoresGrow(events: seq<Event>, i: nat, j: nat)
    requires i <= j <= |events|
    ensures Stores(events[..i]) <= Stores(events[..j])
    decreases j
  {
    if i < j {
      assert events[..j][..j - 1] == events[..j - 1];
      StoresGrow(events, i, j - 1);
    }
  }

  /** A token names one event. */
  lemma TokensDiffer(events: seq<Event>, i: nat, j: nat)
    requires EventsNumbered(events) && i < j < |events| && events[i].Stored? && events[j].Stored?
    ensures 1 <= events[i].item.cas < events[j].item.cas <= Stores(events)
  {
    hide Stores;
    StoresAt(events, i);
    StoresAt(events, j);
    StoresGrow(events, i + 1, j);
  }

  /** A store takes the next number. */
  lemma StoresAt(events: seq<Event>, i: nat)
    requires i < |events| && events[i].Stored?
    ensures 1 <= Stores(events[..i + 1]) == Stores(events[..i]) + 1 <= Stores(events)
  {
    assert events[..i + 1][..i] == events[..i];
    StoresGrow(events, i + 1, |events|);
    assert events[..|events|] == events;
  }

  lemma {:induction false} LastAt(events: seq<Event>, key: string) returns (i: nat)
    requires Last(events, key).Some?
    ensures i < |events| && events[i] == Last(events, key).value && Touches(events[i], key)
    ensures forall j :: i < j < |events| ==> !Touches(events[j], key)
  {
    if Touches(events[|events| - 1], key) {
      i := |events| - 1;
    } else {
      i := LastAt(events[..|events| - 1], key);
      forall j | i < j < |events| ensures !Touches(events[j], key) {
        assert j < |events| - 1 ==> events[j] == events[..|events| - 1][j];
      }
    }
  }

  lemma {:induction false} LastIs(events: seq<Event>, key: string, i: nat)
    requires i < |events| && Touches(events[i], key) && forall j :: i < j < |events| ==> !Touches(events[j], key)
    ensures Last(events, key) == Some(events[i])
  {
    if i < |events| - 1 {
      var front := events[..|events| - 1];
      forall j | i < j < |front| ensures !Touches(front[j], key) {
        assert front[j] == events[j];
      }
      LastIs(front, key, i);
    }
  }

  /** Live tokens are positive, at most the counter, and differ from key to key. */
  lemma LiveTokens(c: Cache, k1: string, k2: string)
    requires Inv(c) && k1 in c.table && k2 in c.table
    ensures 1 <= c.table[k1].cas <= c.counter
    ensures k1 != k2 ==> c.table[k1].cas != c.table[k2].cas
  {
    var i := LastAt(c.events, k1);
    var j := LastAt(c.events, k2);
    StoresAt(c.events, i);
    if k1 != k2 {
      if i < j {
        TokensDiffer(c.events, i, j);
      } else if j < i {
        TokensDiffer(c.events, j, i);
      }
    }
  }

  /** The store event that issued a token for a key, with nothing on that key since. */
  ghost predicate Untouched(events: seq<Event>, key: string, token: int, i: nat) {
    && i < |events| && events[i].Stored? && events[i].item.key == key && events[i].item.cas == token
    && forall j :: i < j < |events| ==> !Touches(events[j], key)
  }

  /** A compare-and-swap is accepted if and only if the store that issued its token was to this key
      and nothing has happened to the key since. */
  lemma CasIffUntouched(c: Cache, item: Item)
    requires Inv(c)
    ensures Accepts(c, item, Cas) <==> exists i: nat :: Untouched(c.events, item.key, item.cas, i)
  {
    if Accepts(c, item, Cas) {
      var i := LastAt(c.events, item.key);
      assert Untouched(c.events, item.key, item.cas, i);
    }
    if i: nat :| Untouched(c.events, item.key, item.cas, i) {
      LastIs(c.events, item.key, i);
    }
  }

  // ----- every step keeps the invariant -----

  lemma LastSnoc(events: seq<Event>, e: Event, key: string)
    ensures Last(events + [e], key) == if Touches(e, key) then Some(e) else Last(events, key)
    ensures Stores(events + [e]) == Stores(events) + if e.Stored? then 1 else 0
  {
    assert (events + [e])[..|events|] == events;
  }

  lemma NumberedSnoc(events: seq<Event>, e: Event)
    requires EventsNumbered(events) && (e.Stored? ==> e.item.cas == Stores(events) + 1)
    ensures EventsNumbered(events + [e])
  {
    var all := events + [e];
    forall i | 0 <= i < |all| && all[i].Stored? ensures all[i].item.cas == Stores(all[..i + 1]) {
      if i < |events| {
        assert all[..i + 1] == events[..i + 1];
      } else {
        assert all[..i + 1] == all;
        LastSnoc(events, e, "");
      }
    }
  }

  lemma PutKeepsInv(c: Cache, item: Item)
    requires Inv(c) && EndsWithCRLF(item.value)
    ensures Inv(Put(c, item))
  {
    var e := Stored(item.(cas := c.counter + 1));
    NumberedSnoc(c.events, e);
    forall key ensures Last(c.events + [e], key) == if Touches(e, key) then Some(e) else Last(c.events, key) {
      LastSnoc(c.events, e, key);
    }
    LastSnoc(c.events, e, "");
  }

  lemma DeleteKeepsInv(c: Cache, key: string)
    requires Inv(c)
    ensures Inv(Delete(c, key))
  {
    var e := Deleted(key);
    NumberedSnoc(c.events, e);
    forall k ensures Last(c.events + [e], k) == if Touches(e, k) then Some(e) else Last(c.events, k) {
      LastSnoc(c.events, e, k);
    }
    LastSnoc(c.events, e, "");
  }

  /** Appending and prepending join the bodies and keep one line end. */
  lemma IncomingValue(c: Cache, item: Item, policy: Policy)
    requires Accepts(c, item, policy) && EndsWithCRLF(item.value)
    requires item.key in c.table ==> EndsWithCRLF(c.table[item.key].value)
    ensures var v := Incoming(c, item, policy).value;
      && EndsWithCRLF(v) && Incoming(c, item, policy).key == item.key && v == Body(v) + CRLF
      && (policy.Append? ==> Body(v) == Body(c.table[item.key].value) + Body(item.value))
      && (policy.Prepend? ==> Body(v) == Body(item.value) + Body(c.table[item.key].value))
      && (!policy.Append? && !policy.Prepend? ==> v == item.value)
  {
    assert item.value == Body(item.value) + CRLF;
    if policy.Append? || policy.Prepend? {
      var was := c.table[item.key];
      assert was.value == Body(was.value) + CRLF;
    }
  }

  lemma StoreKeepsInv(c: Cache, item: Item, policy: Policy)
    requires Inv(c) && EndsWithCRLF(item.value)
    ensures item.key in c.table ==> EndsWithCRLF(c.table[item.key].value)
    ensures Inv(Store(c, item, policy))
  {
    if Accepts(c, item, policy) {
      IncomingValue(c, item, policy);
      PutKeepsInv(c, Incoming(c, item, policy));
    }
  }

  /** What a client reads after a store: under an accepted one the item's own value or the joined
      bodies, under a fresh token; under a refused one, and for every other key, what was there. */
  lemma ReadAfterStore(c: Cache, item: Item, policy: Policy, other: string)
    requires Inv(c) && EndsWithCRLF(item.value)
    ensures item.key in c.table ==> EndsWithCRLF(c.table[item.key].value)
    ensures var d := Store(c, item, policy);
      && (!Accepts(c, item, policy) ==> d == c)
      && (other != item.key ==> (other in d.table <==> other in c.table)
                                && (other in c.table ==> d.table[other] == c.table[other]))
      && (Accepts(c, item, policy) ==>
            && item.key in d.table && d.table[item.key].cas == c.counter + 1
            && d.table[item.key].value == (match policy
                 case Append => Body(c.table[item.key].value) + Body(item.value) + CRLF
                 case Prepend => Body(item.value) + Body(c.table[item.key].value) + CRLF
                 case _ => item.value)
            && (policy.Append? || policy.Prepend? ==>
                  d.table[item.key].flags == c.table[item.key].flags && d.table[item.key].exptime == c.table[item.key].exptime)
            && (!policy.Append? && !policy.Prepend? ==>
                  d.table[item.key].flags == item.flags && d.table[item.key].exptime == item.exptime)
            && d.counter == c.counter + 1
            && (forall k :: k in c.table ==> c.table[k].cas != d.table[item.key].cas))
  {
    if Accepts(c, item, policy) {
      IncomingValue(c, item, policy);
      forall k | k in c.table ensures c.table[k].cas <= c.counter {
        LiveTokens(c, k, k);
      }
    }
  }

  /** What a client finds after a delete: the key is gone, so an add is accepted again and every store
      that needs the key refused; nothing else has changed. */
  lemma ReadAfterDelete(c: Cache, key: string, other: string, item: Item)
    requires Inv(c)
    ensures var d := Delete(c, key);
      && key !in d.table && d.counter == c.counter
      && (other != key ==> (other in d.table <==> other in c.table)
                           && (other in c.table ==> d.table[other] == c.table[other]))
      && (key !in c.table ==> d == c)
      && (item.key == key ==> Accepts(d, item, Add) && Accepts(d, item, Set) && !Accepts(d, item, Replace)
                              && !Accepts(d, item, Append) && !Accepts(d, item, Prepend) && !Accepts(d, item, Cas))
  {
  }

  datatype Op = StoreOp(item: Item, policy: Policy) | DeleteOp(key: string)

  /** One operation. Items reach the store only with a complete value. */
  ghost function Apply(c: Cache, op: Op): (d: Cache)
    requires Inv(c)
    ensures Inv(d)
  {
    match op
    case StoreOp(item, policy) =>
      if EndsWithCRLF(item.value) then StoreKeepsInv(c, item, policy); Store(c, item, policy) else c
    case DeleteOp(key) => DeleteKeepsInv(c, key); Delete(c, key)
  }

  ghost function RunFrom(c: Cache, ops: seq<Op>): (d: Cache)
    requires Inv(c)
    ensures Inv(d)
  {
    if ops == [] then c else Apply(RunFrom(c, ops[..|ops| - 1]), ops[|ops| - 1])
  }

  ghost function Run(ops: seq<Op>): (c: Cache)
    ensures Inv(c)
  {
    EmptyInv();
    RunFrom(EMPTY, ops)
  }

  lemma EmptyInv()
    ensures Inv(EMPTY)
  {
  }

  /** The token was handed out and no live item carries it. */
  ghost predicate Spent(c: Cache, token: int) {
    token <= c.counter && forall k :: k in c.table ==> c.table[k].cas != token
  }

  lemma StepKeepsSpent(c: Cache, op: Op, token: int)
    requires Inv(c) && Spent(c, token)
    ensures Spent(Apply(c, op), token)
  {
  }

  lemma {:induction false} SpentForGood(c: Cache, ops: seq<Op>, token: int)
    requires Inv(c) && Spent(c, token)
    ensures Spent(RunFrom(c, ops), token)
  {
    hide Inv, Apply, Spent;
    if ops != [] {
      SpentForGood(c, ops[..|ops| - 1], token);
      StepKeepsSpent(RunFrom(c, ops[..|ops| - 1]), ops[|ops| - 1], token);
    }
  }

  /** After a successful swap its token is refused for good: no continuation ever accepts a swap
      with it, for any key. */
  lemma CasOnce(c: Cache, item: Item, ops: seq<Op>, later: Item)
    requires Inv(c) && EndsWithCRLF(item.value) && Accepts(c, item, Cas) && later.cas == item.cas
    ensures !Accepts(RunFrom(Apply(c, StoreOp(item, Cas)), ops), later, Cas)
  {
    var d := Apply(c, StoreOp(item, Cas));
    LiveTokens(c, item.key, item.key);
    forall k | k in d.table ensures d.table[k].cas != item.cas {
      if k != item.key {
        LiveTokens(c, item.key, k);
      }
    }
    SpentForGood(d, ops, item.cas);
  }

  // ----- presence, from the operations alone -----

  /** The operation is a complete store of the key that is accepted after `before`. */
  ghost predicate StoresKey(before: seq<Op>, op: Op, key: string) {
    op.StoreOp? && op.item.key == key && EndsWithCRLF(op.item.value) && Accepts(Run(before), op.item, op.policy)
  }

  lemma RunSnoc(ops: seq<Op>)
    requires ops != []
    ensures Run(ops) == Apply(Run(ops[..|ops| - 1]), ops[|ops| - 1])
  {
  }

  /** Operation `i` is such a store, and no deletion of the key follows. */
  ghost predicate StandsAt(ops: seq<Op>, i: nat, key: string) {
    i < |ops| && StoresKey(ops[..i], ops[i], key) && DeleteOp(key) !in ops[i + 1..]
  }

  lemma StandsSnoc(ops: seq<Op>, i: nat, key: string)
    requires i < |ops|
    ensures var n := |ops| - 1;
      && (i < n ==> (StandsAt(ops, i, key) <==> StandsAt(ops[..n], i, key) && ops[n] != DeleteOp(key)))
      && (StandsAt(ops, n, key) <==> StoresKey(ops[..n], ops[n], key))
  {
    var front := ops[..|ops| - 1];
    if i < |front| {
      assert ops[..i] == front[..i] && ops[i + 1..] == front[i + 1..] + [ops[|ops| - 1]];
    }
  }

  /** A key is present exactly when an accepted store of it is not followed by a deletion of it. */
  lemma {:induction false} PresentIff(ops: seq<Op>, key: string)
    ensures key in Run(ops).table <==> exists i: nat :: StandsAt(ops, i, key)
  {
    hide Inv, Run, StoresKey, StandsAt;
    if ops == [] {
      NothingStored();
      NothingStands(key);
    } else {
      var front, op := ops[..|ops| - 1], ops[|ops| - 1];
      PresentIff(front, key);
      RunSnoc(ops);
      PresentStep(front, op, key);
      StandsSnoc(ops, |front|, key);
      if i: nat :| StandsAt(front, i, key) {
        StandsInside(front, i, key);
        StandsSnoc(ops, i, key);
      }
      if i: nat :| StandsAt(ops, i, key) {
        StandsInside(ops, i, key);
        StandsSnoc(ops, i, key);
      }
    }
  }

  lemma StandsInside(ops: seq<Op>, i: nat, key: string)
    requires StandsAt(ops, i, key)
    ensures i < |ops| && (i == |ops| - 1 ==> ops[i] != DeleteOp(key))
  {
  }

  lemma NothingStands(key: string)
    ensures forall i: nat :: !StandsAt([], i, key)
  {
  }

  lemma NothingStored()
    ensures Run([]).table == map[]
  {
  }

  lemma PresentStep(before: seq<Op>, op: Op, key: string)
    ensures key in Apply(Run(before), op).table <==>
      StoresKey(before, op, key) || (key in Run(before).table && op != DeleteOp(key))
  {
    var c := Run(before);
    match op
    case StoreOp(item, policy) =>
      if EndsWithCRLF(item.value) {
        ReadAfterStore(c, item, policy, key);
      }
    case DeleteOp(k) => ReadAfterDelete(c, k, key, Item(k, 0, 0, "", 0));
  }

  /** So a store is accepted: a set always, an add exactly without the key, a replace, append or
      prepend exactly with it. */
  lemma AcceptedIff(ops: seq<Op>, item: Item)
    ensures Accepts(Run(ops), item, Set)
    ensures var present := exists i: nat :: StandsAt(ops, i, item.key);
      && (Accepts(Run(ops), item, Add) <==> !present) && (Accepts(Run(ops), item, Replace) <==> present)
      && (Accepts(Run(ops), item, Append) <==> present) && (Accepts(Run(ops), item, Prepend) <==> present)
  {
    PresentIff(ops, item.key);
  }

  /** In every history: live tokens are positive, distinct and at most the counter, and a
      compare-and-swap succeeds exactly on the untouched item that issued its token. */
  lemma HistoriesRight(ops: seq<Op>, item: Item, k1: string, k2: string)
    ensures var c := Run(ops);
      && (k1 in c.table ==> 1 <= c.table[k1].cas <= c.counter)
      && (k1 in c.table && k2 in c.table && k1 != k2 ==> c.table[k1].cas != c.table[k2].cas)
      && (Accepts(c, item, Cas) <==> exists i: nat :: Untouched(c.events, item.key, item.cas, i))
  {
    if k1 in Run(ops).table {
      LiveTokens(Run(ops), k1, if k2 in Run(ops).table then k2 else k1);
    }
    CasIffUntouched(Run(ops), item);
  }

  // ----- the shards -----

  /** The replies to a client that sent a value. */
  datatype Reply = STORED | NOT_STORED | EXISTS | NOT_FOUND | BAD_DATA

  class MemcacheServer {
    const hash: string -> nat
    var shards: seq<map<string, Item>>
    var cas: int
    ghost var table: map<string, Item>
    ghost var events: seq<Event>

    function ShardOf(key: string): (i: nat)
      ensures i < SHARDS
    {
      hash(key) % SHARDS
    }

    ghost function View(): Cache
      reads this
    {
      Cache(table, cas, events)
    }

    /** A key is in its own shard or in none, and the shards hold what the one map holds. */
    ghost predicate ShardsRight()
      reads this
    {
      && |shards| == SHARDS
      && (forall i, key :: 0 <= i < SHARDS && key in shards[i] ==> ShardOf(key) == i)
      && (forall key :: key in table <==> key in shards[ShardOf(key)])
      && (forall key :: key in table ==> table[key] == shards[ShardOf(key)][key])
    }

    ghost predicate Valid()
      reads this
    {
      ShardsRight() && Inv(View())
    }

    constructor (hash: string -> nat)
      ensures Valid() && View() == EMPTY && this.hash == hash
    {
      this.hash := hash;
      shards := seq(SHARDS, _ => map[]);
      cas, table, events := 0, map[], [];
    }

    method IncrementAndGet() returns (token: int)
      modifies this`cas
      ensures token == cas == old(cas) + 1
    {
      cas := cas + 1;
      token := cas;
    }

    /** Gives an item the next token and puts it into its shard, over one with the same key if
        there is one. */
    method Insert(item: Item)
      requires ShardsRight()
      modifies this
      ensures ShardsRight() && View() == Put(old(View()), item)
    {
      var token := IncrementAndGet();
      var i := ShardOf(item.key);
      var stored := item.(cas := token);
      shards := shards[i := shards[i][item.key := stored]];
      table := table[item.key := stored];
      events := events + [Stored(stored)];
    }

    method StoreItem(item: Item, policy: Policy) returns (ok: bool, present: bool)
      requires Valid() && EndsWithCRLF(item.value)
      modifies this
      ensures item.key in old(table) ==> EndsWithCRLF(old(table)[item.key].value)
      ensures Valid() && View() == Store(old(View()), item, policy)
      ensures ok == Accepts(old(View()), item, policy) && present == (item.key in old(table))
    {
      hide Inv, EndsWithCRLF;
      StoreKeepsInv(View(), item, policy);
      var shard := shards[ShardOf(item.key)];
      present := item.key in shard;
      match policy {
        case Set =>
          Insert(item);
        case Add =>
          if present {
            return false, present;
          }
          Insert(item);
        case Replace =>
          if !present {
            return false, present;
          }
          Insert(item);
        case Append =>
          if !present {
            return false, present;
          }
          var newItem := Combine(item.key, shard[item.key], shard[item.key].value, item.value);
          Insert(newItem);
        case Prepend =>
          if !present {
            return false, present;
          }
          var newItem := Combine(item.key, shard[item.key], item.value, shard[item.key].value);
          Insert(newItem);
        case Cas =>
          if !present || shard[item.key].cas != item.cas {
            return false, present;
          }
          Insert(item);
      }
      ok := true;
    }

    /** A new item with the old one's flags, whose value is `first` without its line end followed
        by `second`. */
    method Combine(key: string, was: Item, first: string, second: string) returns (r: Item)
      requires EndsWithCRLF(first) && EndsWithCRLF(second)
      ensures |first| >= 2 && r == was.(key := key, value := Body(first) + second)
      ensures EndsWithCRLF(r.value)
    {
      var newLen := |first| + |second| - 2;
      var data := first[..|first| - 2];
      data := data + second;
      assert |data| == newLen;
      assert data[|data| - 2..] == second[|second| - 2..];
      r := was.(key := key, value := data);
    }

    method GetItem(key: string) returns (item: Option<Item>)
      requires Valid()
      ensures item == if key in View().table then Some(View().table[key]) else None
    {
      var items := shards[ShardOf(key)];
      item := if key in items then Some(items[key]) else None;
    }

    method DeleteItem(key: string) returns (ok: bool)
      requires Valid()
      modifies this
      ensures Valid() && View() == Delete(old(View()), key) && ok == (key in old(table))
      ensures key !in table && cas == old(cas)
      ensures forall k :: k != key ==> (k in table <==> k in old(table)) && (k in table ==> table[k] == old(table)[k])
    {
      hide Inv;
      DeleteKeepsInv(View(), key);
      var i := ShardOf(key);
      ok := key in shards[i];
      if ok {
        shards := shards[i := shards[i] - {key}];
        table := table - {key};
        events := events + [Deleted(key)];
      }
    }
  }

  // ----- a session that receives a value -----

  /** What the store is after a complete value: unchanged if the value lacks its line end. */
  function Received(c: Cache, item: Item, policy: Policy): Cache
    requires item.key in c.table ==> EndsWithCRLF(c.table[item.key].value)
  {
    if EndsWithCRLF(item.value) then Store(c, item, policy) else c
  }

  /** What each reply says about the store. */
  predicate ReplyRight(c: Cache, item: Item, policy: Policy, reply: Reply) {
    && (reply == BAD_DATA <==> !EndsWithCRLF(item.value))
    && (reply == STORED <==> EndsWithCRLF(item.value) && Accepts(c, item, policy))
    && (reply == EXISTS ==> policy.Cas? && item.key in c.table && c.table[item.key].cas != item.cas)
    && (reply == NOT_FOUND ==> policy.Cas? && item.key !in c.table)
    && (reply == NOT_STORED ==> !policy.Cas? && !Accepts(c, item, policy))
  }

  lemma ReplyTable(c: Cache, item: Item, policy: Policy)
    ensures !EndsWithCRLF(item.value) ==> ReplyRight(c, item, policy, BAD_DATA)
    ensures EndsWithCRLF(item.value) ==>
      if Accepts(c, item, policy) then ReplyRight(c, item, policy, STORED)
      else if !policy.Cas? then ReplyRight(c, item, policy, NOT_STORED)
      else ReplyRight(c, item, policy, if item.key in c.table then EXISTS else NOT_FOUND)
  {
  }

  class Session {
    const owner: MemcacheServer
    /** The item under construction, with the part of its value received so far. */
    var currItem: Option<Item>
    var valueLen: nat
    var policy: Policy

    ghost predicate Receiving()
      reads this
    {
      currItem.Some? && |currItem.value.value| < valueLen && valueLen >= 2
    }

    constructor (owner: MemcacheServer)
      ensures this.owner == owner && currItem.None?
    {
      this.owner := owner;
      currItem, valueLen, policy := None, 0, Set;
    }

    /** The end of `doUpdate`: `bytes` is the announced length without the line end. */
    method StartValue(key: string, flags: nat, exptime: int, bytes: nat, cas: int, policy: Policy)
      modifies this
      ensures Receiving() && valueLen == bytes + 2 && currItem == Some(Item(key, flags, exptime, "", cas)) && this.policy == policy
    {
      currItem := Some(Item(key, flags, exptime, "", cas));
      valueLen := bytes + 2;
      this.policy := policy;
    }

    /** Takes from the buffer what the value still needs. However the value is cut into pieces, the
        item is stored when its last byte is there, with exactly the announced number of bytes. */
    method ReceiveValue(buf: string) returns (rest: string, reply: Option<Reply>)
      requires owner.Valid() && Receiving()
      modifies this, owner
      ensures owner.Valid() && valueLen == old(valueLen) && policy == old(policy)
      ensures var all := old(currItem.value.value) + buf;
        if |all| < valueLen then
          && rest == "" && reply.None? && Receiving() && owner.View() == old(owner.View())
          && currItem == Some(old(currItem.value).(value := all))
        else
          var item := old(currItem.value).(value := all[..valueLen]);
          && rest == all[valueLen..] && reply.Some? && currItem.None?
          && ReplyRight(old(owner.View()), item, policy, reply.value)
          && (item.key in old(owner.table) ==> EndsWithCRLF(old(owner.table)[item.key].value))
          && owner.View() == Received(old(owner.View()), item, policy)
    {
      var item := currItem.value;
      var needed := valueLen - |item.value|;
      var avail := if |buf| < needed then |buf| else needed;
      ghost var all := item.value + buf;
      assert item.value + buf[..avail] == all[..|item.value| + avail];
      assert buf[avail..] == all[|item.value| + avail..];
      item := item.(value := item.value + buf[..avail]);
      rest := buf[avail..];
      currItem, reply := Some(item), None;
      if |item.value| == valueLen {
        var r := FinishValue(item);
        reply := Some(r);
        currItem := None;
      } else {
        assert avail == |buf| && buf[..avail] == buf;
      }
    }

    method FinishValue(item: Item) returns (reply: Reply)
      requires owner.Valid()
      modifies owner
      ensures owner.Valid() && ReplyRight(old(owner.View()), item, policy, reply)
      ensures item.key in old(owner.table) ==> EndsWithCRLF(old(owner.table)[item.key].value)
      ensures owner.View() == Received(old(owner.View()), item, policy)
    {
      TableEnds(owner.View(), item.key);
      hide Inv, EndsWithCRLF, Accepts, Store, ReplyRight;
      ReplyTable(owner.View(), item, policy);
      if EndsWithCRLF(item.value) {
        var ok, present := owner.StoreItem(item, policy);
        if ok {
          reply := STORED;
        } else if policy.Cas? {
          reply := if present then EXISTS else NOT_FOUND;
        } else {
          reply := NOT_STORED;
        }
      } else {
        reply := BAD_DATA;
      }
    }
  }

  lemma TableEnds(c: Cache, key: string)
    requires Inv(c)
    ensures key in c.table ==> EndsWithCRLF(c.table[key].value)
  {
  }
}
