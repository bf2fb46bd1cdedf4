/**
The growing hash table of hash.c: an array of buckets, each the head of a chain of linked
entries. Entries live at addresses, and the links between them are changed in place. The ghost
chains follow the links; byKey is the finite map that the table stands for.
*/
module HashTables {
  import Division

  // An address; 0 is the null pointer.
  type Ref = nat

  const REBUILD_LIMIT: nat := 3
  const WORD: nat := 0x1_0000_0000

  // The hash function, from a hash so far.
  function HashFrom(h: nat, key: string): (r: nat)
    ensures h < WORD ==> r < WORD
    decreases |key|
  {
    if key == "" then h else HashFrom((31 * h + key[0] as nat % 256) % WORD, key[1..])
  }

  function Hash(key: string): nat { HashFrom(0, key) }

  method HashString(key: string) returns (h: nat)
    ensures h == Hash(key)
  {
    h := 0;
    var p := 0;
    while p < |key|
      invariant p <= |key| && HashFrom(h, key[p..]) == Hash(key)
    {
      h := (31 * h + key[p] as nat % 256) % WORD;
      p := p + 1;
    }
  }

  // The bitwise and of two words.
  function BitAnd(x: nat, y: nat): nat {
    if x == 0 || y == 0 then 0 else (if x % 2 == 1 && y % 2 == 1 then 1 else 0) + 2 * BitAnd(x / 2, y / 2)
  }

  ghost predicate IsPowerOfTwo(size: nat) {
    exists k: nat :: size == Division.Pow2(k)
  }

  lemma {:induction false} MaskOfPower(h: nat, k: nat)
    ensures BitAnd(h, Division.Pow2(k) - 1) == h % Division.Pow2(k)
  {
    if k > 0 {
      var m := Division.Pow2(k - 1);
      MaskOfPower(h / 2, k - 1);
      RemainderByHalves(h, m);
      assert (2 * m - 1) / 2 == m - 1 && (2 * m - 1) % 2 == 1;
      if h == 0 {
        Division.DivUnique(0, 2 * m, 0, 0);
      } else {
        MaskStep(h, 2 * m - 1);
      }
    }
  }

  lemma MaskStep(h: nat, mask: nat)
    requires h > 0 && mask % 2 == 1
    ensures BitAnd(h, mask) == h % 2 + 2 * BitAnd(h / 2, mask / 2)
  {
  }

  lemma RemainderByHalves(h: nat, m: nat)
    requires m > 0
    ensures h % (2 * m) == h % 2 + 2 * (h / 2 % m)
  {
    var q, r := h / 2 / m, h / 2 % m;
    assert h / 2 == q * m + r;
    assert h == q * (2 * m) + (2 * r + h % 2);
    Division.DivUnique(h, 2 * m, q, 2 * r + h % 2);
  }

  // In a table whose number of buckets is a power of two, masking finds the bucket.
  lemma MaskIsIndex(h: nat, size: nat)
    requires IsPowerOfTwo(size)
    ensures size > 0 && BitAnd(h, size - 1) == Index(h, size)
  {
    var k: nat :| size == Division.Pow2(k);
    MaskOfPower(h, k);
  }

  lemma TwiceAPower(size: nat)
    requires IsPowerOfTwo(size)
    ensures IsPowerOfTwo(2 * size)
  {
    var k: nat :| size == Division.Pow2(k);
    assert 2 * size == Division.Pow2(k + 1);
  }

  // The bucket of a hash.
  function Index(h: nat, size: nat): (b: nat)
    requires size > 0
    ensures b < size
  {
    h % size
  }

  // The part of an entry that never changes.
  datatype Entry = Entry(key: string, hash: nat)

  type Entries = map<Ref, Entry>
  type Links = map<Ref, Ref>
  type Chain = seq<Ref>

  // ---------------------------------------------------------------- chains

  function At(chain: Chain, i: nat): Ref { if i < |chain| then chain[i] else 0 }

  ghost predicate LinkOk(next: Links, chain: Chain, i: nat)
    requires i < |chain|
  {
    chain[i] != 0 && chain[i] in next && next[chain[i]] == At(chain, i + 1)
  }

  // The links lead from the head through the chain.
  ghost predicate Linked(next: Links, head: Ref, chain: Chain) {
    head == At(chain, 0) && forall i :: 0 <= i < |chain| ==> LinkOk(next, chain, i)
  }

  ghost predicate NoDup(chain: Chain) {
    forall i, j :: 0 <= i < j < |chain| ==> chain[i] != chain[j]
  }

  // ---------------------------------------------------------------- the layout

  // An entry is where its key says.
  ghost predicate EntryOk(entries: Entries, byKey: map<string, Ref>, size: nat, b: nat, e: Ref)
    requires size > 0
  {
    && e in entries && entries[e].hash == Hash(entries[e].key) && Index(entries[e].hash, size) == b
    && entries[e].key in byKey && byKey[entries[e].key] == e
  }

  ghost predicate BucketOk(entries: Entries, byKey: map<string, Ref>, size: nat, b: nat, chain: Chain)
    requires size > 0
  {
    NoDup(chain) && forall i :: 0 <= i < |chain| ==> EntryOk(entries, byKey, size, b, chain[i])
  }

  ghost predicate KeyOk(entries: Entries, byKey: map<string, Ref>, chains: seq<Chain>, k: string)
    requires |chains| > 0
  {
    k in byKey ==> byKey[k] in entries && entries[byKey[k]].key == k && byKey[k] in chains[Index(Hash(k), |chains|)]
  }

  // The chains hold exactly the entries, each in its bucket, each once.
  ghost predicate Layout(entries: Entries, byKey: map<string, Ref>, chains: seq<Chain>) {
    && |chains| > 0
    && (forall b :: 0 <= b < |chains| ==> BucketOk(entries, byKey, |chains|, b, chains[b]))
    && (forall k: string :: KeyOk(entries, byKey, chains, k))
  }

  // Every bucket leads through its chain.
  ghost predicate Held(next: Links, buckets: seq<Ref>, chains: seq<Chain>) {
    |buckets| == |chains| && forall b :: 0 <= b < |chains| ==> Linked(next, buckets[b], chains[b])
  }

  predicate IsFor(entries: Entries, e: Ref, key: string, h: nat) {
    e in entries && entries[e].hash == h && entries[e].key == key
  }

  // ---------------------------------------------------------------- searching

  // The loop of HashTable_Find over one chain.
  method FindInChain(entries: Entries, next: Links, head: Ref, ghost chain: Chain, key: string, h: nat) returns (he: Ref)
    requires Linked(next, head, chain) && forall i :: 0 <= i < |chain| ==> chain[i] in entries
    ensures he != 0 ==> he in chain && IsFor(entries, he, key, h)
    ensures he == 0 ==> forall i :: 0 <= i < |chain| ==> !IsFor(entries, chain[i], key, h)
  {
    ghost var i := 0;
    he := head;
    while he != 0 && !(entries[he].hash == h && entries[he].key == key)
      invariant 0 <= i <= |chain| && he == At(chain, i)
      invariant forall j :: 0 <= j < i ==> !IsFor(entries, chain[j], key, h)
      decreases |chain| - i
    {
      assert LinkOk(next, chain, i);
      he := next[he];
      i := i + 1;
    }
    if i < |chain| {
      assert LinkOk(next, chain, i);
    }
  }

  // What the search for a key in its bucket means for the table.
  lemma FoundInBucket(entries: Entries, byKey: map<string, Ref>, chains: seq<Chain>, key: string, he: Ref)
    requires Layout(entries, byKey, chains)
    requires var chain := chains[Index(Hash(key), |chains|)];
      if he != 0 then he in chain && IsFor(entries, he, key, Hash(key))
      else forall i :: 0 <= i < |chain| ==> !IsFor(entries, chain[i], key, Hash(key))
    ensures if he != 0 then key in byKey && byKey[key] == he else key !in byKey
  {
    var b := Index(Hash(key), |chains|);
    assert BucketOk(entries, byKey, |chains|, b, chains[b]);
    if he != 0 {
      var i :| 0 <= i < |chains[b]| && chains[b][i] == he;
      assert EntryOk(entries, byKey, |chains|, b, chains[b][i]);
    }
    assert key in byKey ==> KeyOk(entries, byKey, chains, key);
  }

  // ---------------------------------------------------------------- adding

  lemma PushLayout(entries: Entries, byKey: map<string, Ref>, chains: seq<Chain>, e: Ref, key: string, b: nat)
    requires Layout(entries, byKey, chains) && key !in byKey && e !in entries && b == Index(Hash(key), |chains|)
    ensures Layout(entries[e := Entry(key, Hash(key))], byKey[key := e], chains[b := [e] + chains[b]])
  {
    var entries', byKey', chains' := entries[e := Entry(key, Hash(key))], byKey[key := e], chains[b := [e] + chains[b]];
    forall c | 0 <= c < |chains'| ensures BucketOk(entries', byKey', |chains'|, c, chains'[c]) {
      PushBucket(entries, byKey, chains, e, key, b, c);
    }
    forall k: string ensures KeyOk(entries', byKey', chains', k) {
      if k != key {
        assert KeyOk(entries, byKey, chains, k);
      }
    }
  }

  lemma PushBucket(entries: Entries, byKey: map<string, Ref>, chains: seq<Chain>, e: Ref, key: string, b: nat, c: nat)
    requires Layout(entries, byKey, chains) && key !in byKey && e !in entries && b == Index(Hash(key), |chains|)
    requires c < |chains|
    ensures BucketOk(entries[e := Entry(key, Hash(key))], byKey[key := e], |chains|, c, chains[b := [e] + chains[b]][c])
  {
    var entries', byKey' := entries[e := Entry(key, Hash(key))], byKey[key := e];
    var chain, chain' := chains[c], chains[b := [e] + chains[b]][c];
    assert BucketOk(entries, byKey, |chains|, c, chain);
    forall i | 0 <= i < |chain| ensures EntryOk(entries', byKey', |chains|, c, chain[i]) && chain[i] != e {
      assert EntryOk(entries, byKey, |chains|, c, chain[i]);
    }
    forall i | 0 <= i < |chain'| ensures EntryOk(entries', byKey', |chains|, c, chain'[i]) {
    }
  }

  lemma HeldPush(next: Links, buckets: seq<Ref>, chains: seq<Chain>, e: Ref, b: nat)
    requires Held(next, buckets, chains) && b < |chains| && e != 0
    requires forall c :: 0 <= c < |chains| ==> e !in chains[c]
    ensures Held(next[e := buckets[b]], buckets[b := e], chains[b := [e] + chains[b]])
  {
    var next', chains' := next[e := buckets[b]], chains[b := [e] + chains[b]];
    forall c | 0 <= c < |chains| ensures Linked(next', buckets[b := e][c], chains'[c]) {
      var chain := chains'[c];
      assert Linked(next, buckets[c], chains[c]);
      forall i | 0 <= i < |chain| ensures LinkOk(next', chain, i) {
        if c != b {
          assert LinkOk(next, chain, i);
        } else if i > 0 {
          assert LinkOk(next, chains[c], i - 1);
        }
      }
    }
  }

  // ---------------------------------------------------------------- removing

  function Without(chain: Chain, i: nat): Chain
    requires i < |chain|
  {
    chain[..i] + chain[i + 1..]
  }

  lemma WithoutKeeps(chain: Chain, i: nat, e: Ref)
    requires i < |chain| && e != chain[i]
    ensures e in chain ==> e in Without(chain, i)
  {
    if e in chain {
      var j :| 0 <= j < |chain| && chain[j] == e;
      assert Without(chain, i)[if j < i then j else j - 1] == e;
    }
  }

  lemma RemoveBucket(entries: Entries, byKey: map<string, Ref>, chains: seq<Chain>, b: nat, i: nat, c: nat)
    requires Layout(entries, byKey, chains) && b < |chains| && i < |chains[b]| && c < |chains|
    requires chains[b][i] in entries
    ensures var e := chains[b][i];
      BucketOk(entries - {e}, byKey - {entries[e].key}, |chains|, c, chains[b := Without(chains[b], i)][c])
  {
    var e := chains[b][i];
    var chain, chain' := chains[c], chains[b := Without(chains[b], i)][c];
    assert BucketOk(entries, byKey, |chains|, b, chains[b]) && EntryOk(entries, byKey, |chains|, b, chains[b][i]);
    assert BucketOk(entries, byKey, |chains|, c, chain);
    forall j | 0 <= j < |chain'| ensures EntryOk(entries - {e}, byKey - {entries[e].key}, |chains|, c, chain'[j]) {
      var j0 := if c == b && j >= i then j + 1 else j;
      assert chain'[j] == chain[j0];
      assert EntryOk(entries, byKey, |chains|, c, chain[j0]);
    }
  }

  lemma RemoveLayout(entries: Entries, byKey: map<string, Ref>, chains: seq<Chain>, b: nat, i: nat)
    requires Layout(entries, byKey, chains) && b < |chains| && i < |chains[b]|
    ensures chains[b][i] in entries && entries[chains[b][i]].key in byKey
    ensures Layout(entries - {chains[b][i]}, byKey - {entries[chains[b][i]].key}, chains[b := Without(chains[b], i)])
  {
    var e := chains[b][i];
    assert BucketOk(entries, byKey, |chains|, b, chains[b]) && EntryOk(entries, byKey, |chains|, b, chains[b][i]);
    var entries', byKey', chains' := entries - {e}, byKey - {entries[e].key}, chains[b := Without(chains[b], i)];
    forall c | 0 <= c < |chains'| ensures BucketOk(entries', byKey', |chains'|, c, chains'[c]) {
      RemoveBucket(entries, byKey, chains, b, i, c);
    }
    forall k: string ensures KeyOk(entries', byKey', chains', k) {
      assert KeyOk(entries, byKey, chains, k);
      if k in byKey' {
        WithoutKeeps(chains[b], i, byKey[k]);
      }
    }
  }

  // The links after the one to the i-th entry was made to lead past it.
  function Bypassed(next: Links, chain: Chain, i: nat): Links
    requires i < |chain|
  {
    if i == 0 || chain[i] !in next then next else next[chain[i - 1] := next[chain[i]]]
  }

  lemma UnlinkChain(next: Links, head: Ref, chain: Chain, i: nat)
    requires Linked(next, head, chain) && NoDup(chain) && i < |chain|
    ensures chain[0] in next
    ensures Linked(Bypassed(next, chain, i), if i == 0 then next[chain[0]] else head, Without(chain, i))
  {
    var next', rest := Bypassed(next, chain, i), Without(chain, i);
    assert LinkOk(next, chain, i);
    assert LinkOk(next, chain, 0);
    forall k | 0 <= k < |rest| ensures LinkOk(next', rest, k) {
      var k0 := if k < i then k else k + 1;
      assert rest[k] == chain[k0];
      assert LinkOk(next, chain, k0);
    }
  }

  // Two buckets have no entry in common, and an entry stands once in its bucket.
  lemma PlaceUnique(entries: Entries, byKey: map<string, Ref>, chains: seq<Chain>, b: nat, i: nat, c: nat, j: nat)
    requires Layout(entries, byKey, chains) && b < |chains| && i < |chains[b]| && c < |chains| && j < |chains[c]|
    ensures chains[b][i] == chains[c][j] ==> b == c && i == j
  {
    assert BucketOk(entries, byKey, |chains|, b, chains[b]) && BucketOk(entries, byKey, |chains|, c, chains[c]);
    assert EntryOk(entries, byKey, |chains|, b, chains[b][i]) && EntryOk(entries, byKey, |chains|, c, chains[c][j]);
  }

  lemma HeldRemove(entries: Entries, byKey: map<string, Ref>, next: Links, buckets: seq<Ref>, chains: seq<Chain>, b: nat, i: nat)
    requires Layout(entries, byKey, chains) && Held(next, buckets, chains) && b < |chains| && i < |chains[b]|
    ensures chains[b][0] in next
    ensures Held(Bypassed(next, chains[b], i), buckets[b := if i == 0 then next[chains[b][0]] else buckets[b]],
                 chains[b := Without(chains[b], i)])
  {
    var next' := Bypassed(next, chains[b], i);
    assert Linked(next, buckets[b], chains[b]) && BucketOk(entries, byKey, |chains|, b, chains[b]);
    assert LinkOk(next, chains[b], 0);
    UnlinkChain(next, buckets[b], chains[b], i);
    forall c | 0 <= c < |chains| && c != b ensures Linked(next', buckets[c], chains[c]) {
      assert Linked(next, buckets[c], chains[c]);
      forall j | 0 <= j < |chains[c]| ensures LinkOk(next', chains[c], j) {
        assert LinkOk(next, chains[c], j);
        if i > 0 {
          PlaceUnique(entries, byKey, chains, c, j, b, i - 1);
        }
      }
    }
  }

  // ---------------------------------------------------------------- making the table larger

  // Whether the j-th entry of bucket c has been moved: those before the i-th of bucket b have.
  ghost predicate Placed(entries: Entries, chains: seq<Chain>, newChains: seq<Chain>, b: nat, i: nat, c: nat, j: nat)
    requires c < |chains| && j < |chains[c]| && |newChains| > 0
  {
    var e := chains[c][j];
    e in entries && (e in newChains[Index(entries[e].hash, |newChains|)] <==> c < b || (c == b && j < i))
  }

  ghost predicate Moving(entries: Entries, byKey: map<string, Ref>, chains: seq<Chain>, newChains: seq<Chain>, b: nat, i: nat) {
    && |newChains| > 0
    && (forall n :: 0 <= n < |newChains| ==> BucketOk(entries, byKey, |newChains|, n, newChains[n]))
    && (forall c, j :: 0 <= c < |chains| && 0 <= j < |chains[c]| ==> Placed(entries, chains, newChains, b, i, c, j))
  }

  // The links of what has not been moved are as they were.
  ghost predicate StillLinked(next: Links, chains: seq<Chain>, b: nat, i: nat) {
    forall c, j :: 0 <= c < |chains| && 0 <= j < |chains[c]| && (c > b || (c == b && j >= i)) ==> LinkOk(next, chains[c], j)
  }

  // The entry to be moved is in none of the new chains.
  lemma NotMovedYet(entries: Entries, byKey: map<string, Ref>, chains: seq<Chain>, newChains: seq<Chain>, b: nat, i: nat, n: nat)
    requires Moving(entries, byKey, chains, newChains, b, i) && b < |chains| && i < |chains[b]| && n < |newChains|
    ensures chains[b][i] in entries && chains[b][i] !in newChains[n]
  {
    var e := chains[b][i];
    assert Placed(entries, chains, newChains, b, i, b, i);
    assert BucketOk(entries, byKey, |newChains|, n, newChains[n]);
    forall j | 0 <= j < |newChains[n]| ensures newChains[n][j] != e {
      assert EntryOk(entries, byKey, |newChains|, n, newChains[n][j]);
    }
  }

  lemma MoveBucket(entries: Entries, byKey: map<string, Ref>, chains: seq<Chain>, newChains: seq<Chain>, b: nat, i: nat)
    requires Layout(entries, byKey, chains) && Moving(entries, byKey, chains, newChains, b, i)
    requires b < |chains| && i < |chains[b]| && chains[b][i] in entries
    ensures var e := chains[b][i];
      var n := Index(entries[e].hash, |newChains|);
      BucketOk(entries, byKey, |newChains|, n, [e] + newChains[n])
  {
    var e := chains[b][i];
    var n := Index(entries[e].hash, |newChains|);
    NotMovedYet(entries, byKey, chains, newChains, b, i, n);
    assert BucketOk(entries, byKey, |newChains|, n, newChains[n]);
    assert BucketOk(entries, byKey, |chains|, b, chains[b]) && EntryOk(entries, byKey, |chains|, b, chains[b][i]);
    forall j | 0 <= j < |[e] + newChains[n]| ensures EntryOk(entries, byKey, |newChains|, n, ([e] + newChains[n])[j]) {
      if j > 0 {
        assert EntryOk(entries, byKey, |newChains|, n, newChains[n][j - 1]);
      }
    }
  }

  lemma MoveStep(entries: Entries, byKey: map<string, Ref>, chains: seq<Chain>, newChains: seq<Chain>, b: nat, i: nat, newChains': seq<Chain>)
    requires Layout(entries, byKey, chains) && Moving(entries, byKey, chains, newChains, b, i)
    requires b < |chains| && i < |chains[b]| && chains[b][i] in entries
    requires var e := chains[b][i];
      var n := Index(entries[e].hash, |newChains|);
      newChains' == newChains[n := [e] + newChains[n]]
    ensures Moving(entries, byKey, chains, newChains', b, i + 1)
  {
    MoveBucket(entries, byKey, chains, newChains, b, i);
    var i' := i + 1;
    forall c, j | 0 <= c < |chains| && 0 <= j < |chains[c]| ensures Placed(entries, chains, newChains', b, i', c, j) {
      assert Placed(entries, chains, newChains, b, i, c, j);
      PlaceUnique(entries, byKey, chains, c, j, b, i);
    }
  }

  lemma MoveLinks(entries: Entries, byKey: map<string, Ref>, chains: seq<Chain>, next: Links, b: nat, i: nat, to: Ref)
    requires Layout(entries, byKey, chains) && StillLinked(next, chains, b, i) && b < |chains| && i < |chains[b]|
    ensures StillLinked(next[chains[b][i] := to], chains, b, i + 1)
  {
    var next' := next[chains[b][i] := to];
    forall c, j | 0 <= c < |chains| && 0 <= j < |chains[c]| && (c > b || (c == b && j >= i + 1)) ensures LinkOk(next', chains[c], j) {
      assert LinkOk(next, chains[c], j);
      PlaceUnique(entries, byKey, chains, c, j, b, i);
    }
  }

  // When a bucket is done, the next one begins.
  lemma NextBucket(entries: Entries, byKey: map<string, Ref>, chains: seq<Chain>, newChains: seq<Chain>, next: Links, b: nat)
    requires b < |chains| && Moving(entries, byKey, chains, newChains, b, |chains[b]|) && StillLinked(next, chains, b, |chains[b]|)
    ensures Moving(entries, byKey, chains, newChains, b + 1, 0) && StillLinked(next, chains, b + 1, 0)
  {
    var b' := b + 1;
    forall c, j | 0 <= c < |chains| && 0 <= j < |chains[c]| ensures Placed(entries, chains, newChains, b', 0, c, j) {
      assert Placed(entries, chains, newChains, b, |chains[b]|, c, j);
    }
  }

  // When all buckets are done, the new chains hold the same entries.
  lemma Moved(entries: Entries, byKey: map<string, Ref>, chains: seq<Chain>, newChains: seq<Chain>)
    requires Layout(entries, byKey, chains) && Moving(entries, byKey, chains, newChains, |chains|, 0)
    ensures Layout(entries, byKey, newChains)
  {
    forall k: string ensures KeyOk(entries, byKey, newChains, k) {
      assert KeyOk(entries, byKey, chains, k);
      if k in byKey {
        var c := Index(Hash(k), |chains|);
        var j :| 0 <= j < |chains[c]| && chains[c][j] == byKey[k];
        assert Placed(entries, chains, newChains, |chains|, 0, c, j);
        assert BucketOk(entries, byKey, |chains|, c, chains[c]) && EntryOk(entries, byKey, |chains|, c, chains[c][j]);
      }
    }
  }

  lemma MovingStarts(entries: Entries, byKey: map<string, Ref>, next: Links, buckets: seq<Ref>, chains: seq<Chain>, size: nat)
    requires Layout(entries, byKey, chains) && Held(next, buckets, chains) && size > 0
    ensures var newChains := seq(size, n => []);
      Moving(entries, byKey, chains, newChains, 0, 0) && Held(next, seq(size, n => 0), newChains)
    ensures StillLinked(next, chains, 0, 0)
  {
    var newChains: seq<Chain> := seq(size, n => []);
    forall c, j | 0 <= c < |chains| && 0 <= j < |chains[c]|
      ensures Placed(entries, chains, newChains, 0, 0, c, j) && LinkOk(next, chains[c], j)
    {
      assert BucketOk(entries, byKey, |chains|, c, chains[c]) && EntryOk(entries, byKey, |chains|, c, chains[c][j]);
      assert Linked(next, buckets[c], chains[c]);
    }
  }

  lemma ChainEntries(entries: Entries, byKey: map<string, Ref>, chains: seq<Chain>, b: nat)
    requires Layout(entries, byKey, chains) && b < |chains|
    ensures forall i :: 0 <= i < |chains[b]| ==> chains[b][i] in entries
  {
    assert BucketOk(entries, byKey, |chains|, b, chains[b]);
    forall i | 0 <= i < |chains[b]| ensures chains[b][i] in entries {
      assert EntryOk(entries, byKey, |chains|, b, chains[b][i]);
    }
  }

  ghost predicate RefOk(entries: Entries, values: map<Ref, nat>, byKey: map<string, Ref>, e: Ref) {
    && (e in entries ==> entries[e].key in byKey && byKey[entries[e].key] == e)
    && (e in entries <==> e in values)
  }

  // Every entry is in the table and has a value.
  ghost predicate EntriesAre(entries: Entries, values: map<Ref, nat>, byKey: map<string, Ref>) {
    forall e: Ref :: RefOk(entries, values, byKey, e)
  }

  // Where an entry stands.
  lemma PlaceOf(entries: Entries, byKey: map<string, Ref>, chains: seq<Chain>, values: map<Ref, nat>, e: Ref) returns (i: nat)
    requires Layout(entries, byKey, chains) && EntriesAre(entries, values, byKey) && e in entries
    ensures entries[e].hash == Hash(entries[e].key)
    ensures var b := Index(entries[e].hash, |chains|); i < |chains[b]| && chains[b][i] == e
  {
    var k := entries[e].key;
    assert RefOk(entries, values, byKey, e);
    assert KeyOk(entries, byKey, chains, k);
    var b := Index(Hash(k), |chains|);
    i :| 0 <= i < |chains[b]| && chains[b][i] == e;
    assert BucketOk(entries, byKey, |chains|, b, chains[b]) && EntryOk(entries, byKey, |chains|, b, chains[b][i]);
  }

  class HashTable {
    var buckets: seq<Ref>
    var bucketsMask: nat
    var numEntries: nat
    var entries: Entries
    var values: map<Ref, nat>      // the values of the entries, 0 for the null pointer
    var next: Links
    ghost var chains: seq<Chain>
    ghost var byKey: map<string, Ref>

    ghost predicate Valid()
      reads this
    {
      && Layout(entries, byKey, chains) && EntriesAre(entries, values, byKey) && Held(next, buckets, chains)
      && numEntries == |byKey| <= REBUILD_LIMIT * |buckets|
      && IsPowerOfTwo(|buckets|) && bucketsMask == |buckets| - 1
    }

    // The map from keys to values that the table stands for.
    ghost function Contents(): map<string, nat>
      reads this
    {
      ContentsOf(values, byKey)
    }

    // HashTable_Init
    constructor ()
      ensures Valid() && byKey == map[] && |buckets| == 16
    {
      buckets, bucketsMask, numEntries := seq(16, i => 0), 15, 0;
      entries, values, next := map[], map[], map[];
      chains, byKey := seq(16, i => []), map[];
      assert Division.Pow2(4) == 16;
    }

    // HashTable_Find
    method Find(key: string, h: nat) returns (he: Ref)
      requires Valid() && h == Hash(key)
      ensures he != 0 ==> key in byKey && byKey[key] == he && he in entries
      ensures he == 0 ==> key !in byKey
    {
      MaskIsIndex(h, |buckets|);
      var b := BitAnd(h, bucketsMask);
      assert Linked(next, buckets[b], chains[b]);
      ChainEntries(entries, byKey, chains, b);
      he := FindInChain(entries, next, buckets[b], chains[b], key, h);
      FoundInBucket(entries, byKey, chains, key, he);
      assert KeyOk(entries, byKey, chains, key);
    }

    // HashTable_FindValue
    method FindValue(key: string) returns (value: nat)
      requires Valid()
      ensures value == if key in Contents() then Contents()[key] else 0
    {
      var h := HashString(key);
      var he := Find(key, h);
      assert he != 0 ==> RefOk(entries, values, byKey, he);
      value := if he != 0 then values[he] else 0;
    }

    // The inner loop of HashTable_Enlarge: one old chain is moved, entry by entry.
    method MoveChain(oldBuckets: seq<Ref>, b: nat, newBuckets: seq<Ref>, ghost newChains: seq<Chain>)
      returns (newBuckets': seq<Ref>, ghost newChains': seq<Chain>)
      requires Layout(entries, byKey, chains) && b < |chains| && |oldBuckets| == |chains|
      requires oldBuckets[b] == At(chains[b], 0) && IsPowerOfTwo(|newBuckets|)
      requires Moving(entries, byKey, chains, newChains, b, 0) && StillLinked(next, chains, b, 0) && Held(next, newBuckets, newChains)
      modifies this`next
      ensures Moving(entries, byKey, chains, newChains', b + 1, 0) && StillLinked(next, chains, b + 1, 0)
      ensures Held(next, newBuckets', newChains') && |newBuckets'| == |newBuckets|
    {
      newBuckets', newChains' := newBuckets, newChains;
      var he := oldBuckets[b];
      ghost var i := 0;
      ChainEntries(entries, byKey, chains, b);
      while he != 0
        invariant i <= |chains[b]| && he == At(chains[b], i) && |newBuckets'| == |newBuckets|
        invariant Moving(entries, byKey, chains, newChains', b, i) && StillLinked(next, chains, b, i)
        invariant Held(next, newBuckets', newChains')
        decreases |chains[b]| - i
      {
        assert LinkOk(next, chains[b], i);
        var following := next[he];
        MaskIsIndex(entries[he].hash, |newBuckets'|);
        var n := BitAnd(entries[he].hash, |newBuckets'| - 1);
        forall m | 0 <= m < |newChains'| ensures he !in newChains'[m] {
          NotMovedYet(entries, byKey, chains, newChains', b, i, m);
        }
        HeldPush(next, newBuckets', newChains', he, n);
        MoveLinks(entries, byKey, chains, next, b, i, newBuckets'[n]);
        ghost var moved := newChains'[n := [he] + newChains'[n]];
        MoveStep(entries, byKey, chains, newChains', b, i, moved);
        next := next[he := newBuckets'[n]];
        newBuckets', newChains' := newBuckets'[n := he], moved;
        he := following;
        i := i + 1;
      }
      assert i < |chains[b]| ==> LinkOk(next, chains[b], i);
      NextBucket(entries, byKey, chains, newChains', next, b);
    }

    // The outer loop of HashTable_Enlarge.
    method MoveAll(newSize: nat) returns (newBuckets: seq<Ref>, ghost newChains: seq<Chain>)
      requires Layout(entries, byKey, chains) && Held(next, buckets, chains) && IsPowerOfTwo(newSize)
      modifies this`next
      ensures Layout(entries, byKey, newChains) && Held(next, newBuckets, newChains) && |newBuckets| == newSize
    {
      newBuckets, newChains := seq(newSize, n => 0), seq(newSize, n => []);
      MovingStarts(entries, byKey, next, buckets, chains, newSize);
      Heads(next, buckets, chains);
      var b := 0;
      while b < |buckets|
        invariant b <= |buckets| && |newBuckets| == newSize
        invariant Moving(entries, byKey, chains, newChains, b, 0) && StillLinked(next, chains, b, 0)
        invariant Held(next, newBuckets, newChains)
      {
        newBuckets, newChains := MoveChain(buckets, b, newBuckets, newChains);
        b := b + 1;
      }
      Moved(entries, byKey, chains, newChains);
    }

    // HashTable_Enlarge
    method Enlarge()
      requires Valid()
      modifies this`buckets, this`bucketsMask, this`next, this`chains
      ensures Valid() && |buckets| == 2 * |old(buckets)|
    {
      TwiceAPower(|buckets|);
      var newBuckets;
      ghost var newChains;
      newBuckets, newChains := MoveAll(2 * |buckets|);
      buckets, bucketsMask, chains := newBuckets, |newBuckets| - 1, newChains;
    }

    // The end of HashTable_CreateEntry: a new entry, where the allocator put it, becomes the
    // head of its chain.
    method Push(key: string, h: nat, he: Ref)
      requires Valid() && h == Hash(key) && key !in byKey && numEntries < REBUILD_LIMIT * |buckets|
      requires he != 0 && he !in entries
      modifies this
      ensures Valid() && byKey == old(byKey)[key := he] && values == old(values)[he := 0] && |buckets| == |old(buckets)|
    {
      MaskIsIndex(h, |buckets|);
      var b := BitAnd(h, bucketsMask);
      forall c | 0 <= c < |chains| ensures he !in chains[c] {
        ChainEntries(entries, byKey, chains, c);
      }
      PushLayout(entries, byKey, chains, he, key, b);
      HeldPush(next, buckets, chains, he, b);
      PushEntries(entries, values, byKey, he, key);
      entries, values := entries[he := Entry(key, h)], values[he := 0];
      next := next[he := buckets[b]];
      buckets, chains := buckets[b := he], chains[b := [he] + chains[b]];
      byKey := byKey[key := he];
      numEntries := numEntries + 1;
    }

    // HashTable_CreateEntry
    method CreateEntry(key: string, fresh': Ref) returns (he: Ref, isNew: bool)
      requires Valid() && fresh' != 0 && fresh' !in entries
      modifies this
      ensures Valid() && he in entries && isNew == (key !in old(byKey))
      ensures byKey == if isNew then old(byKey)[key := he] else old(byKey)
      ensures values == (if isNew then old(values)[he := 0] else old(values)) && key in byKey && byKey[key] == he
      ensures |buckets| == if isNew && old(numEntries) >= REBUILD_LIMIT * |old(buckets)| then 2 * |old(buckets)| else |old(buckets)|
    {
      var h := HashString(key);
      he := Find(key, h);
      isNew := he == 0;
      if isNew {
        if numEntries >= REBUILD_LIMIT * |buckets| {
          Enlarge();
        }
        he := fresh';
        Push(key, h, he);
        assert KeyOk(entries, byKey, chains, key);
      }
    }

    // HashTable_Set
    method Set(key: string, value: nat, fresh': Ref)
      requires Valid() && fresh' != 0 && fresh' !in entries
      modifies this
      ensures Valid() && Contents() == old(Contents())[key := value]
    {
      var he, isNew := CreateEntry(key, fresh');
      SetValue(entries, old(values), old(byKey), values, byKey, chains, key, he, value);
      values := values[he := value];
    }

    // The links lead past an entry of the table.
    method UnlinkEntry(he: Ref) returns (ghost b: nat, ghost i: nat)
      requires Layout(entries, byKey, chains) && EntriesAre(entries, values, byKey) && Held(next, buckets, chains)
      requires he in entries && IsPowerOfTwo(|buckets|) && bucketsMask == |buckets| - 1
      modifies this`next, this`buckets, this`chains
      ensures Layout(entries - {he}, byKey - {entries[he].key}, chains) && Held(next, buckets, chains)
      ensures |buckets| == |old(buckets)| && b < |old(chains)| && i < |old(chains)[b]| && old(chains)[b][i] == he
      ensures chains == old(chains)[b := Without(old(chains)[b], i)]
    {
      b, i := RemoveLinks(entries, values, byKey, next, buckets, chains, he);
      MaskIsIndex(entries[he].hash, |buckets|);
      var c := BitAnd(entries[he].hash, bucketsMask);
      ghost var chain := chains[b];
      var head, links := Unlink(next, buckets[c], he, chain, i);
      next, buckets, chains := links, buckets[c := head], chains[b := Without(chain, i)];
    }

    // HashTable_DeleteEntry
    method DeleteEntry(he: Ref) returns (ghost b: nat, ghost i: nat)
      requires Valid() && he in entries
      modifies this
      ensures Valid() && entries == old(entries) - {he} && values == old(values) - {he}
      ensures byKey == old(byKey) - {old(entries)[he].key} && Contents() == old(Contents()) - {old(entries)[he].key}
      ensures b < |old(chains)| && i < |old(chains)[b]| && old(chains)[b][i] == he
      ensures chains == old(chains)[b := Without(old(chains)[b], i)]
    {
      RemoveEntries(entries, values, byKey, he);
      RemoveContents(entries, values, byKey, chains, he);
      b, i := UnlinkEntry(he);
      byKey := byKey - {entries[he].key};
      entries, values := entries - {he}, values - {he};
      numEntries := numEntries - 1;
    }
  }

  // What leading the links past an entry keeps.
  lemma RemoveLinks(entries: Entries, values: map<Ref, nat>, byKey: map<string, Ref>, next: Links, buckets: seq<Ref>,
                    chains: seq<Chain>, e: Ref) returns (b: nat, i: nat)
    requires Layout(entries, byKey, chains) && EntriesAre(entries, values, byKey) && Held(next, buckets, chains) && e in entries
    ensures b == Index(entries[e].hash, |chains|) && i < |chains[b]| && chains[b][i] == e
    ensures NoDup(chains[b]) && Linked(next, buckets[b], chains[b]) && chains[b][0] in next
    ensures Layout(entries - {e}, byKey - {entries[e].key}, chains[b := Without(chains[b], i)])
    ensures Held(Bypassed(next, chains[b], i), buckets[b := if i == 0 then next[chains[b][0]] else buckets[b]],
                 chains[b := Without(chains[b], i)])
  {
    i := PlaceOf(entries, byKey, chains, values, e);
    b := Index(entries[e].hash, |chains|);
    assert BucketOk(entries, byKey, |chains|, b, chains[b]);
    RemoveLayout(entries, byKey, chains, b, i);
    HeldRemove(entries, byKey, next, buckets, chains, b, i);
  }

  lemma RemoveContents(entries: Entries, values: map<Ref, nat>, byKey: map<string, Ref>, chains: seq<Chain>, e: Ref)
    requires Layout(entries, byKey, chains) && e in entries
    ensures ContentsOf(values - {e}, byKey - {entries[e].key}) == ContentsOf(values, byKey) - {entries[e].key}
  {
    var k0 := entries[e].key;
    var now, want := ContentsOf(values - {e}, byKey - {k0}), ContentsOf(values, byKey) - {k0};
    forall k: string ensures (k in now <==> k in want) && (k in now ==> now[k] == want[k]) {
      assert KeyOk(entries, byKey, chains, k);
    }
  }

  // The loop of HashTable_DeleteEntry: the link to he is made to lead past it.
  method Unlink(next: Links, head: Ref, he: Ref, ghost chain: Chain, ghost i: nat) returns (head': Ref, next': Links)
    requires Linked(next, head, chain) && NoDup(chain) && i < |chain| && chain[i] == he
    ensures chain[0] in next && head' == (if i == 0 then next[chain[0]] else head) && next' == Bypassed(next, chain, i)
  {
    var prev, p := 0, head;
    ghost var j := 0;
    while p != he
      invariant 0 <= j <= i && p == At(chain, j) && prev == (if j == 0 then 0 else chain[j - 1])
      decreases i - j
    {
      assert LinkOk(next, chain, j);
      prev, p := p, next[p];
      j := j + 1;
    }
    assert LinkOk(next, chain, i) && LinkOk(next, chain, 0);
    assert j > 0 ==> LinkOk(next, chain, j - 1);
    if prev == 0 {
      head', next' := next[p], next;
    } else {
      head', next' := head, next[prev := next[p]];
    }
  }

  ghost function ContentsOf(values: map<Ref, nat>, byKey: map<string, Ref>): map<string, nat> {
    map k | k in byKey && byKey[k] in values :: values[byKey[k]]
  }

  // Setting the value of the entry for a key, which may have been created for it.
  lemma SetValue(entries: Entries, values0: map<Ref, nat>, byKey0: map<string, Ref>, values: map<Ref, nat>,
                 byKey: map<string, Ref>, chains: seq<Chain>, key: string, e: Ref, value: nat)
    requires Layout(entries, byKey, chains) && EntriesAre(entries, values, byKey) && key in byKey && byKey[key] == e
    requires e in entries
    requires (values == values0 && byKey == byKey0) || (values == values0[e := 0] && byKey == byKey0[key := e])
    ensures EntriesAre(entries, values[e := value], byKey)
    ensures ContentsOf(values[e := value], byKey) == ContentsOf(values0, byKey0)[key := value]
  {
    var values' := values[e := value];
    forall x: Ref ensures RefOk(entries, values', byKey, x) {
      assert RefOk(entries, values, byKey, x);
      assert RefOk(entries, values, byKey, e);
    }
    var now, want := ContentsOf(values', byKey), ContentsOf(values0, byKey0)[key := value];
    forall k: string ensures (k in now <==> k in want) && (k in now ==> now[k] == want[k]) {
      assert KeyOk(entries, byKey, chains, k) && KeyOk(entries, byKey, chains, key);
    }
  }

  lemma PushEntries(entries: Entries, values: map<Ref, nat>, byKey: map<string, Ref>, e: Ref, key: string)
    requires EntriesAre(entries, values, byKey) && e !in entries && key !in byKey
    ensures EntriesAre(entries[e := Entry(key, Hash(key))], values[e := 0], byKey[key := e])
  {
    var entries', values', byKey' := entries[e := Entry(key, Hash(key))], values[e := 0], byKey[key := e];
    forall x: Ref ensures RefOk(entries', values', byKey', x) {
      assert RefOk(entries, values, byKey, x);
    }
  }

  lemma RemoveEntries(entries: Entries, values: map<Ref, nat>, byKey: map<string, Ref>, e: Ref)
    requires EntriesAre(entries, values, byKey) && e in entries
    ensures EntriesAre(entries - {e}, values - {e}, byKey - {entries[e].key})
    ensures entries[e].key in byKey && |byKey - {entries[e].key}| == |byKey| - 1
  {
    var k := entries[e].key;
    assert RefOk(entries, values, byKey, e);
    var entries', values', byKey' := entries - {e}, values - {e}, byKey - {k};
    forall x: Ref ensures RefOk(entries', values', byKey', x) {
      assert RefOk(entries, values, byKey, x);
    }
    assert byKey == byKey'[k := e];
  }

  lemma Heads(next: Links, buckets: seq<Ref>, chains: seq<Chain>)
    requires Held(next, buckets, chains)
    ensures forall b :: 0 <= b < |chains| ==> buckets[b] == At(chains[b], 0)
  {
    forall b | 0 <= b < |chains| ensures buckets[b] == At(chains[b], 0) {
      assert Linked(next, buckets[b], chains[b]);
    }
  }
}
