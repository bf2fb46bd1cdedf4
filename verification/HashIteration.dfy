/**
Walking through a hash table, and removing entries on the way: the iterator of hash.c and the
purging of the cache of real paths in main.c.
*/
module HashIteration {
  import opened HashTables

  // The entries from bucket b on.
  function Rest(chains: seq<Chain>, b: nat): Chain
    decreases |chains| - b
  {
    if b >= |chains| then [] else chains[b] + Rest(chains, b + 1)
  }

  // The entry last returned is at this place of the bucket before the next one.
  ghost predicate IterOk(chains: seq<Chain>, nextBucket: nat, entry: Ref, place: nat) {
    && nextBucket <= |chains|
    && (entry != 0 ==> nextBucket > 0 && place < |chains[nextBucket - 1]| && chains[nextBucket - 1][place] == entry)
  }

  // What is still to be visited.
  ghost function Remaining(chains: seq<Chain>, nextBucket: nat, entry: Ref, place: nat): Chain
    requires IterOk(chains, nextBucket, entry, place)
  {
    if entry == 0 then Rest(chains, nextBucket)
    else chains[nextBucket - 1][place + 1..] + Rest(chains, nextBucket)
  }

  // ---------------------------------------------------------------- every entry once

  lemma {:induction false} InRest(chains: seq<Chain>, b: nat, c: nat, j: nat)
    requires b <= c < |chains| && j < |chains[c]|
    ensures chains[c][j] in Rest(chains, b)
    decreases c - b
  {
    if b < c {
      InRest(chains, b + 1, c, j);
    }
  }

  lemma {:induction false} FromRest(chains: seq<Chain>, b: nat, e: Ref) returns (c: nat, j: nat)
    requires e in Rest(chains, b)
    ensures b <= c < |chains| && j < |chains[c]| && chains[c][j] == e
    decreases |chains| - b
  {
    if e in chains[b] {
      c := b;
      j :| 0 <= j < |chains[b]| && chains[b][j] == e;
    } else {
      c, j := FromRest(chains, b + 1, e);
    }
  }

  lemma {:induction false} RestNoDup(entries: Entries, byKey: map<string, Ref>, chains: seq<Chain>, b: nat)
    requires Layout(entries, byKey, chains)
    ensures NoDup(Rest(chains, b))
    decreases |chains| - b
  {
    if b < |chains| {
      RestNoDup(entries, byKey, chains, b + 1);
      assert BucketOk(entries, byKey, |chains|, b, chains[b]);
      forall i | 0 <= i < |chains[b]| ensures chains[b][i] !in Rest(chains, b + 1) {
        NotInLater(entries, byKey, chains, b, i);
      }
      AppendNoDup(chains[b], Rest(chains, b + 1));
    }
  }

  lemma NotInLater(entries: Entries, byKey: map<string, Ref>, chains: seq<Chain>, b: nat, i: nat)
    requires Layout(entries, byKey, chains) && b < |chains| && i < |chains[b]|
    ensures chains[b][i] !in Rest(chains, b + 1)
  {
    var e := chains[b][i];
    forall c: nat, j: nat | b + 1 <= c < |chains| && j < |chains[c]| ensures chains[c][j] != e {
      PlaceUnique(entries, byKey, chains, b, i, c, j);
    }
    RestAvoids(chains, b + 1, e);
  }

  lemma {:induction false} RestAvoids(chains: seq<Chain>, b: nat, e: Ref)
    requires forall c: nat, j: nat :: b <= c < |chains| && j < |chains[c]| ==> chains[c][j] != e
    ensures e !in Rest(chains, b)
    decreases |chains| - b
  {
    if b < |chains| {
      RestAvoids(chains, b + 1, e);
    }
  }

  lemma AppendNoDup(a: Chain, b: Chain)
    requires NoDup(a) && NoDup(b) && forall i :: 0 <= i < |a| ==> a[i] !in b
    ensures NoDup(a + b)
  {
  }

  // A walk from the start visits exactly the entries of the table, each once.
  lemma EveryEntryOnce(entries: Entries, values: map<Ref, nat>, byKey: map<string, Ref>, chains: seq<Chain>)
    requires Layout(entries, byKey, chains) && EntriesAre(entries, values, byKey)
    ensures NoDup(Rest(chains, 0)) && forall e: Ref :: e in Rest(chains, 0) <==> e in entries
  {
    RestNoDup(entries, byKey, chains, 0);
    forall e: Ref ensures e in Rest(chains, 0) <==> e in entries {
      if e in entries {
        var i := PlaceOf(entries, byKey, chains, values, e);
        InRest(chains, 0, Index(entries[e].hash, |chains|), i);
      }
      if e in Rest(chains, 0) {
        var c, j := FromRest(chains, 0, e);
        ChainEntries(entries, byKey, chains, c);
      }
    }
  }

  class HashIter {
    const table: HashTable
    var nextBucket: nat
    var entry: Ref
    ghost var place: nat

    constructor (table: HashTable)
      requires table.Valid()
      ensures this.table == table && nextBucket == 0 && entry == 0 && IterOk(table.chains, nextBucket, entry, place)
    {
      this.table, nextBucket, entry, place := table, 0, 0, 0;
    }

    // HashIter_Next. After the last entry the iterator is of no further use.
    method Next() returns (he: Ref)
      requires Held(table.next, table.buckets, table.chains) && IterOk(table.chains, nextBucket, entry, place)
      modifies this
      ensures he == 0 ==> Remaining(table.chains, old(nextBucket), old(entry), old(place)) == []
      ensures he != 0 ==>
                && entry == he && IterOk(table.chains, nextBucket, entry, place)
                && Remaining(table.chains, old(nextBucket), old(entry), old(place))
                   == [he] + Remaining(table.chains, nextBucket, entry, place)
                && (old(nextBucket) < nextBucket || (old(nextBucket) == nextBucket && place == old(place) + 1))
    {
      he := entry;
      if he != 0 {
        FollowLink(table.next, table.buckets, table.chains, nextBucket, entry, place);
        he := table.next[he];
        if he != 0 {
          entry, place := he, place + 1;
          return;
        }
      }
      he, nextBucket := FirstNonempty(table.buckets, nextBucket, table.next, table.chains);
      if he != 0 {
        entry, place := he, 0;
      }
    }
  }

  // The loop of HashIter_Next: find the next nonempty chain.
  method FirstNonempty(buckets: seq<Ref>, from: nat, ghost next: Links, ghost chains: seq<Chain>) returns (he: Ref, b: nat)
    requires Held(next, buckets, chains) && from <= |chains|
    ensures from <= b <= |chains|
    ensures he == 0 ==> Rest(chains, from) == []
    ensures he != 0 ==>
              && from < b && |chains[b - 1]| > 0 && chains[b - 1][0] == he
              && Rest(chains, from) == [he] + (chains[b - 1][1..] + Rest(chains, b))
  {
    he, b := 0, from;
    while he == 0
      invariant from <= b <= |chains|
      invariant he == 0 ==> Rest(chains, from) == Rest(chains, b)
      invariant he != 0 ==>
                && from < b && |chains[b - 1]| > 0 && chains[b - 1][0] == he
                && Rest(chains, from) == [he] + (chains[b - 1][1..] + Rest(chains, b))
      decreases |chains| - b, he == 0
    {
      if b >= |buckets| {
        return;
      }
      EnterBucket(next, buckets, chains, b);
      he := buckets[b];
      b := b + 1;
    }
  }

  lemma EnterBucket(next: Links, buckets: seq<Ref>, chains: seq<Chain>, b: nat)
    requires Held(next, buckets, chains) && b < |chains|
    ensures buckets[b] == 0 ==> chains[b] == [] && Rest(chains, b) == Rest(chains, b + 1)
    ensures buckets[b] != 0 ==> |chains[b]| > 0 && chains[b][0] == buckets[b]
                                && Rest(chains, b) == [buckets[b]] + (chains[b][1..] + Rest(chains, b + 1))
  {
    assert Linked(next, buckets[b], chains[b]);
    assert |chains[b]| > 0 ==> LinkOk(next, chains[b], 0);
    if |chains[b]| > 0 {
      assert chains[b] == [chains[b][0]] + chains[b][1..];
    }
  }

  // The link of the entry last returned leads to the next one in its chain, if there is one.
  lemma FollowLink(next: Links, buckets: seq<Ref>, chains: seq<Chain>, nextBucket: nat, entry: Ref, place: nat)
    requires Held(next, buckets, chains) && IterOk(chains, nextBucket, entry, place) && entry != 0
    ensures entry in next
    ensures next[entry] == 0 ==> Remaining(chains, nextBucket, entry, place) == Rest(chains, nextBucket)
    ensures next[entry] != 0 ==>
              && IterOk(chains, nextBucket, next[entry], place + 1)
              && Remaining(chains, nextBucket, entry, place)
                 == [next[entry]] + Remaining(chains, nextBucket, next[entry], place + 1)
  {
    var chain := chains[nextBucket - 1];
    assert Linked(next, buckets[nextBucket - 1], chain);
    assert LinkOk(next, chain, place);
    if place + 1 < |chain| {
      assert LinkOk(next, chain, place + 1);
      assert chain[place + 1..] == [chain[place + 1]] + chain[place + 2..];
    } else {
      assert chain[place + 1..] + Rest(chains, nextBucket) == Rest(chains, nextBucket);
    }
  }

  // ---------------------------------------------------------------- removing on the way

  lemma {:induction false} RestSame(chains: seq<Chain>, chains': seq<Chain>, b: nat)
    requires |chains| == |chains'| && forall c :: b <= c < |chains| ==> chains[c] == chains'[c]
    ensures Rest(chains, b) == Rest(chains', b)
    decreases |chains| - b
  {
    if b < |chains| {
      RestSame(chains, chains', b + 1);
    }
  }

  // Removing the entry that was returned before the last one does not disturb the walk.
  lemma WalkGoesOn(entries: Entries, byKey: map<string, Ref>, chains: seq<Chain>, b: nat, i: nat,
                   nextBucket0: nat, he: Ref, place0: nat, nextBucket: nat, e: Ref, place: nat)
    requires Layout(entries, byKey, chains) && b < |chains| && i < |chains[b]| && chains[b][i] == he
    requires he != 0 && IterOk(chains, nextBucket0, he, place0) && e != 0 && IterOk(chains, nextBucket, e, place)
    requires nextBucket0 < nextBucket || (nextBucket0 == nextBucket && place == place0 + 1)
    ensures var chains' := chains[b := Without(chains[b], i)];
      var place' := if nextBucket0 == nextBucket then place0 else place;
      IterOk(chains', nextBucket, e, place')
      && Remaining(chains', nextBucket, e, place') == Remaining(chains, nextBucket, e, place)
  {
    PlaceUnique(entries, byKey, chains, b, i, nextBucket0 - 1, place0);
    var chains' := chains[b := Without(chains[b], i)];
    RestSame(chains, chains', nextBucket);
    if nextBucket0 == nextBucket {
      assert chains'[b][place0..] == chains[b][place..];
      assert chains'[b][place0 + 1..] == chains[b][place + 1..];
    }
  }

  predicate Absolute(key: string) { key != "" && key[0] == '/' }

  // What has been walked over is absolute, or gone; what is ahead is still there.
  ghost predicate AheadOk(entries: Entries, todo: Chain, e: Ref) {
    && (e in todo ==> e in entries)
    && (e in entries ==> e in todo || Absolute(entries[e].key))
  }

  ghost predicate Ahead(entries: Entries, todo: Chain) {
    NoDup(todo) && forall e: Ref :: AheadOk(entries, todo, e)
  }

  ghost predicate KeptAt(was: map<string, nat>, now: map<string, nat>, k: string) {
    && (k in now ==> k in was && now[k] == was[k])
    && (k in was && Absolute(k) ==> k in now)
  }

  ghost predicate KeptAll(was: map<string, nat>, now: map<string, nat>) {
    forall k: string :: KeptAt(was, now, k)
  }

  lemma StepOver(entries: Entries, todo: Chain, he: Ref, rest: Chain)
    requires Ahead(entries, todo) && todo == [he] + rest
    ensures he in entries && he !in rest
    ensures Absolute(entries[he].key) ==> Ahead(entries, rest)
    ensures !Absolute(entries[he].key) ==> Ahead(entries - {he}, rest)
  {
    assert he == todo[0] && AheadOk(entries, todo, he);
    assert forall j :: 0 <= j < |rest| ==> rest[j] == todo[j + 1];
    forall e: Ref
      ensures Absolute(entries[he].key) ==> AheadOk(entries, rest, e)
      ensures !Absolute(entries[he].key) ==> AheadOk(entries - {he}, rest, e)
    {
      assert AheadOk(entries, todo, e);
    }
  }

  lemma DropKey(was: map<string, nat>, now: map<string, nat>, key: string)
    requires KeptAll(was, now) && !Absolute(key)
    ensures KeptAll(was, now - {key})
  {
    forall k: string ensures KeptAt(was, now - {key}, k) {
      assert KeptAt(was, now, k);
    }
  }

  // When the walk is over, what is left is what should be.
  lemma OnlyAbsolute(entries: Entries, values: map<Ref, nat>, byKey: map<string, Ref>, chains: seq<Chain>, was: map<string, nat>)
    requires Layout(entries, byKey, chains) && Ahead(entries, []) && KeptAll(was, ContentsOf(values, byKey))
    ensures ContentsOf(values, byKey) == map k | k in was && Absolute(k) :: was[k]
  {
    var now, want := ContentsOf(values, byKey), map k | k in was && Absolute(k) :: was[k];
    forall k: string ensures (k in now <==> k in want) && (k in now ==> now[k] == want[k]) {
      assert KeptAt(was, now, k) && KeyOk(entries, byKey, chains, k);
      if k in byKey {
        assert AheadOk(entries, [], byKey[k]);
      }
    }
  }

  lemma PurgeStarts(entries: Entries, values: map<Ref, nat>, byKey: map<string, Ref>, chains: seq<Chain>)
    requires Layout(entries, byKey, chains) && EntriesAre(entries, values, byKey)
    ensures Ahead(entries, Rest(chains, 0)) && KeptAll(ContentsOf(values, byKey), ContentsOf(values, byKey))
  {
    EveryEntryOnce(entries, values, byKey, chains);
    forall e: Ref ensures AheadOk(entries, Rest(chains, 0), e) {
    }
  }

  // The iterator has returned he, and todo is ahead of it.
  ghost predicate Walking(chains: seq<Chain>, nextBucket: nat, entry: Ref, place: nat, he: Ref, todo: Chain) {
    if he == 0 then todo == []
    else entry == he && IterOk(chains, nextBucket, he, place) && todo == [he] + Remaining(chains, nextBucket, he, place)
  }

  // Delete an entry after the next one has been fetched.
  method PurgeEntry(t: HashTable, hi: HashIter, he: Ref, next: Ref, ghost nextBucket0: nat, ghost place0: nat, ghost rest: Chain)
    requires t.Valid() && he in t.entries && he != 0 && IterOk(t.chains, nextBucket0, he, place0)
    requires Walking(t.chains, hi.nextBucket, hi.entry, hi.place, next, rest)
    requires next != 0 ==> nextBucket0 < hi.nextBucket || (nextBucket0 == hi.nextBucket && hi.place == place0 + 1)
    modifies t, hi`place
    ensures t.Valid() && t.entries == old(t.entries) - {he}
    ensures t.Contents() == old(t.Contents()) - {old(t.entries)[he].key}
    ensures Walking(t.chains, hi.nextBucket, hi.entry, hi.place, next, rest)
  {
    ghost var chains0, entries0, byKey0 := t.chains, t.entries, t.byKey;
    ghost var b, i := t.DeleteEntry(he);
    if next != 0 {
      WalkGoesOn(entries0, byKey0, chains0, b, i, nextBucket0, he, place0, hi.nextBucket, next, hi.place);
      if nextBucket0 == hi.nextBucket {
        hi.place := place0;
      }
    }
  }

  // purge_relative_cached_realpaths: fetch the next entry, then delete the one before it.
  method PurgeRelative(t: HashTable)
    requires t.Valid()
    modifies t
    ensures t.Valid() && t.Contents() == map k | k in old(t.Contents()) && Absolute(k) :: old(t.Contents())[k]
  {
    ghost var was := t.Contents();
    var hi := new HashIter(t);
    PurgeStarts(t.entries, t.values, t.byKey, t.chains);
    ghost var todo := Rest(t.chains, 0);
    var he := hi.Next();
    while he != 0
      invariant t.Valid() && hi.table == t && Ahead(t.entries, todo) && KeptAll(was, t.Contents())
      invariant Walking(t.chains, hi.nextBucket, hi.entry, hi.place, he, todo)
      decreases |todo|
    {
      ghost var rest := Remaining(t.chains, hi.nextBucket, he, hi.place);
      ghost var nextBucket0, place0 := hi.nextBucket, hi.place;
      StepOver(t.entries, todo, he, rest);
      var next := hi.Next();
      if !Absolute(t.entries[he].key) {
        DropKey(was, t.Contents(), t.entries[he].key);
        PurgeEntry(t, hi, he, next, nextBucket0, place0, rest);
      }
      todo := rest;
      he := next;
    }
    OnlyAbsolute(t.entries, t.values, t.byKey, t.chains, was);
  }
}
