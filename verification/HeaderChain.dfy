/**
 The header chain of core/headerchain.go: every header with its total difficulty, the canonical
 number index, the head and three caches, all updated in place as headers arrive.
 */
module HeaderChain {
  import opened Types
  import opened ChainTree

  /** uint64 arithmetic: one below zero is the largest value. */
  function Pred64(n: nat): nat {
    if n == 0 then MAX_UINT64 else n - 1
  }

  /** A stored total difficulty, under the number and hash it is keyed by. */
  datatype TdEntry = TdEntry(number: nat, td: int)

  /** Adding to a bounded cache may evict any other entries. */
  method LruAdd<V>(cache: map<Hash, V>, k: Hash, v: V) returns (r: map<Hash, V>)
    ensures k in r && r[k] == v
    ensures forall x :: x in r && x != k ==> x in cache && r[x] == cache[x]
  {
    var evicted: set<Hash> :| evicted <= cache.Keys;
    r := (cache - evicted)[k := v];
  }

  /** Writes an entry to the database and to its cache. */
  method StoreIn<V>(db: map<Hash, V>, cache: map<Hash, V>, k: Hash, v: V)
    returns (db': map<Hash, V>, cache': map<Hash, V>)
    requires CacheAgrees(cache, db)
    ensures db' == db[k := v] && CacheAgrees(cache', db')
  {
    db' := db[k := v];
    cache' := LruAdd(cache, k, v);
  }

  ghost predicate CacheAgrees<V>(cache: map<Hash, V>, db: map<Hash, V>) {
    forall k :: k in cache ==> k in db && cache[k] == db[k]
  }

  /**
   The database: some of the headers ever stored, each with its number and its total difficulty.
   `ever` also has those deleted since; all of them together form a tree of genuine headers.
   */
  ghost predicate DbOk(hs: Headers, ever: Headers, tds: map<Hash, TdEntry>, numbers: map<Hash, nat>, genesis: Header,
                       preimage: Hash -> Header) {
    && Tree(ever, genesis) && Genuine(ever, preimage)
    && Within(hs, ever)
    && tds.Keys == numbers.Keys == hs.Keys
    && forall k {:trigger EntryOk(ever, tds, numbers, genesis, k)} ::
         k in hs ==> EntryOk(ever, tds, numbers, genesis, k)
  }

  ghost predicate Genuine(ever: Headers, preimage: Hash -> Header) {
    NO_HASH !in ever && forall k :: k in ever ==> preimage(k) == ever[k]
  }

  ghost predicate EntryOk(ever: Headers, tds: map<Hash, TdEntry>, numbers: map<Hash, nat>, genesis: Header, k: Hash)
    requires Tree(ever, genesis) && k in ever && k in tds && k in numbers
  {
    && numbers[k] == ever[k].number
    && tds[k] == TdEntry(ever[k].number, TotalDifficulty(ever, genesis, k))
  }

  ghost predicate StoredOk(hs: Headers, ever: Headers, tds: map<Hash, TdEntry>, numbers: map<Hash, nat>,
                           hsCached: map<Hash, Header>, tdsCached: map<Hash, TdEntry>, nsCached: map<Hash, nat>,
                           genesis: Header, preimage: Hash -> Header) {
    && DbOk(hs, ever, tds, numbers, genesis, preimage)
    && CacheAgrees(hsCached, hs) && CacheAgrees(tdsCached, tds) && CacheAgrees(nsCached, numbers)
  }

  /** The index is exactly the head's ancestry, and all of that ancestry is stored. */
  ghost predicate HeadOk(canon: map<nat, Hash>, hs: Headers, ever: Headers, genesis: Header, current: Header)
    requires Tree(ever, genesis)
  {
    && Indexes(canon, ever, genesis, current.hash)
    && ever[current.hash] == current && Holds(hs, current)
    && Complete(hs, ever, genesis, current.hash)
  }

  /** Whether every ancestor is stored, down to genesis. */
  ghost predicate Complete(hs: Headers, ever: Headers, genesis: Header, k: Hash)
    requires Tree(ever, genesis) && k in ever
  {
    forall n: nat {:trigger StoredAt(hs, ever, genesis, k, n)} ::
      n <= ever[k].number ==> StoredAt(hs, ever, genesis, k, n)
  }

  ghost predicate StoredAt(hs: Headers, ever: Headers, genesis: Header, k: Hash, n: nat)
    requires Tree(ever, genesis) && k in ever && n <= ever[k].number
  {
    AncestorAt(ever, genesis, k, n) in hs
  }

  predicate Holds(hs: Headers, h: Header) {
    h.hash in hs && hs[h.hash] == h
  }

  ghost predicate Within(small: Headers, large: Headers) {
    forall k :: k in small ==> k in large && small[k] == large[k]
  }

  /** A header with a known parent goes ahead of the head if it is heavier, or as heavy and the coin says so. */
  ghost predicate Outweighs(hs: Headers, genesis: Header, head: Header, header: Header, coin: bool)
    requires Tree(hs, genesis) && head.hash in hs && header.parent in hs
  {
    var extern := header.difficulty + TotalDifficulty(hs, genesis, header.parent);
    var local := TotalDifficulty(hs, genesis, head.hash);
    extern > local || (extern == local && coin)
  }

  datatype Op = Arrive(header: Header, coin: bool) | GoBack(head: nat)

  class Chain {
    const genesis: Header
    ghost const preimage: Hash -> Header   // no two headers share a hash
    ghost var ever: Headers   // the headers stored so far, deleted ones too
    var headers: Headers
    var tds: map<Hash, TdEntry>
    var numbers: map<Hash, nat>
    var canon: map<nat, Hash>
    var headHashDb: Hash
    var current: Header
    var currentHash: Hash
    var headerCache: map<Hash, Header>
    var tdCache: map<Hash, TdEntry>
    var numberCache: map<Hash, nat>

    ghost predicate Stored()
      reads this
    {
      StoredOk(headers, ever, tds, numbers, headerCache, tdCache, numberCache, genesis, preimage)
    }

    /**
     Every stored total difficulty is the sum along the path to genesis, the caches agree with the
     database, the index is exactly the ancestry of the head and that ancestry is stored.  Side
     headers may have lost ancestors to a rewind.
     */
    ghost predicate Sound()
      reads this
    {
      && Stored()
      && current.hash == currentHash == headHashDb
      && HeadOk(canon, headers, ever, genesis, current)
    }

    /** Sound, and no header has lost an ancestor. */
    ghost predicate Valid()
      reads this
    {
      Sound() && Tree(headers, genesis)
    }

    /** No stored header has a greater total difficulty than the head. */
    ghost predicate Heaviest()
      reads this
      requires Sound()
    {
      HeaviestOf(headers.Keys, ever, genesis, current.hash)
    }

    constructor (genesis: Header, ghost preimage: Hash -> Header)
      requires genesis.number == 0 && genesis.hash != NO_HASH && preimage(genesis.hash) == genesis
      ensures Valid() && Heaviest() && this.genesis == genesis && this.preimage == preimage
      ensures headers == ever == map[genesis.hash := genesis] && current == genesis
    {
      this.genesis, this.preimage := genesis, preimage;
      ever, headers := map[genesis.hash := genesis], map[genesis.hash := genesis];
      tds := map[genesis.hash := TdEntry(0, genesis.difficulty)];
      numbers := map[genesis.hash := 0];
      canon := map[0 := genesis.hash];
      headHashDb, current, currentHash := genesis.hash, genesis, genesis.hash;
      headerCache, tdCache, numberCache := map[], map[], map[];
    }

    method GetTd(hash: Hash, number: nat) returns (td: Option<int>)
      requires Stored()
      modifies this`tdCache
      ensures Stored()
      ensures hash in headers && headers[hash].number == number ==> td == Some(TotalDifficulty(ever, genesis, hash))
      ensures hash !in headers ==> td == None
    {
      assert hash in headers ==> EntryOk(ever, tds, numbers, genesis, hash);
      if hash in tdCache {
        return Some(tdCache[hash].td);
      }
      if hash !in tds || tds[hash].number != number {
        return None;
      }
      td := Some(tds[hash].td);
      tdCache := LruAdd(tdCache, hash, tds[hash]);
    }

    /** Stores a header and its total difficulty, whatever its place. */
    method Store(header: Header, td: int)
      requires Stored() && preimage(header.hash) == header && header.hash != NO_HASH
      requires header.parent in headers && header.number == headers[header.parent].number + 1
      requires td == header.difficulty + TotalDifficulty(ever, genesis, header.parent)
      modifies this`headers, this`ever, this`tds, this`numbers, this`tdCache, this`headerCache, this`numberCache
      ensures Stored() && headers == old(headers)[header.hash := header] && ever == old(ever)[header.hash := header]
    {
      var hs, ts, ns, hsCached, tsCached, nsCached :=
        StoreEntry(headers, ever, tds, numbers, headerCache, tdCache, numberCache, genesis, preimage, header, td);
      SetDatabase(hs, ts, ns);
      SetCaches(hsCached, tsCached, nsCached);
      ever := ever[header.hash := header];
    }

    method SetDatabase(hs: Headers, ts: map<Hash, TdEntry>, ns: map<Hash, nat>)
      modifies this`headers, this`tds, this`numbers
      ensures headers == hs && tds == ts && numbers == ns
    {
      headers, tds, numbers := hs, ts, ns;
    }

    method SetCaches(hs: map<Hash, Header>, ts: map<Hash, TdEntry>, ns: map<Hash, nat>)
      modifies this`headerCache, this`tdCache, this`numberCache
      ensures headerCache == hs && tdCache == ts && numberCache == ns
    {
      headerCache, tdCache, numberCache := hs, ts, ns;
    }

    /**
     Writes a header whose parent is known.  The heavier of it and the head becomes the head, a
     tie falls either way, and the index is rerouted onto the new head's ancestry.  The reroute
     dereferences a missing header, and so never ends, exactly when an ancestor is not stored.
     */
    method WriteHeader(header: Header, coin: bool) returns (status: WriteStatus, crashed: bool)
      requires Sound() && preimage(header.hash) == header && header.hash != NO_HASH
      requires header.parent in headers ==> header.number == headers[header.parent].number + 1
      modifies this
      ensures crashed <==> && header.parent in old(headers)
                           && Outweighs(old(ever), genesis, old(current), header, coin)
                           && !Complete(old(headers), old(ever), genesis, header.parent)
      ensures !crashed ==> Sound() && (old(Heaviest()) ==> Heaviest())
      ensures old(Valid()) ==> !crashed && Valid()
      ensures status == UnknownAncestor <==> header.parent !in old(headers)
      ensures status == UnknownAncestor ==>
                headers == old(headers) && ever == old(ever) && canon == old(canon) && current == old(current)
      ensures status != UnknownAncestor ==>
                headers == old(headers)[header.hash := header] && ever == old(ever)[header.hash := header]
      ensures status == Canonical && !crashed ==> current == header
      ensures status == Side ==> current == old(current) && canon == old(canon)
      ensures header.parent in old(headers) ==>
                (status == Canonical <==> Outweighs(old(ever), genesis, old(current), header, coin))
    {
      var ptd := GetTd(header.parent, Pred64(header.number));
      if ptd.None? {
        return UnknownAncestor, false;
      }
      var localTd := GetTd(currentHash, current.number);
      var externTd := header.difficulty + ptd.value;
      if externTd > localTd.value || (externTd == localTd.value && coin) {
        crashed := Extend(header, externTd);
        return Canonical, crashed;
      }
      StoreBesides(header, externTd);
      return Side, false;
    }

    /** Stores a header at least as heavy as the head and makes it the head. */
    method Extend(header: Header, td: int) returns (crashed: bool)
      requires Sound() && preimage(header.hash) == header && header.hash != NO_HASH
      requires header.parent in headers && header.number == headers[header.parent].number + 1
      requires td == header.difficulty + TotalDifficulty(ever, genesis, header.parent)
      requires TotalDifficulty(ever, genesis, current.hash) <= td
      modifies this
      ensures crashed <==> !Complete(old(headers), old(ever), genesis, header.parent)
      ensures !crashed ==> Sound() && (old(Heaviest()) ==> Heaviest()) && current == header
      ensures old(Valid()) ==> !crashed && Valid()
      ensures headers == old(headers)[header.hash := header] && ever == old(ever)[header.hash := header]
    {
      if Tree(headers, genesis) { TreeIsComplete(headers, ever, genesis, header.parent); }
      ChildComplete(headers, ever, genesis, header);
      StoreBesides(header, td);
      crashed := Reroute(header);
    }

    /** Stores the header; the head stays what it was and the heavier of both is now the heaviest. */
    method StoreBesides(header: Header, td: int)
      requires Sound() && preimage(header.hash) == header && header.hash != NO_HASH
      requires header.parent in headers && header.number == headers[header.parent].number + 1
      requires td == header.difficulty + TotalDifficulty(ever, genesis, header.parent)
      modifies this`headers, this`ever, this`tds, this`numbers, this`tdCache, this`headerCache, this`numberCache
      ensures Sound() && (old(Valid()) ==> Valid())
      ensures headers == old(headers)[header.hash := header] && ever == old(ever)[header.hash := header]
      ensures old(Heaviest()) && TotalDifficulty(old(ever), genesis, current.hash) <= td ==>
                HeaviestOf(headers.Keys, ever, genesis, header.hash)
      ensures old(Heaviest()) && td <= TotalDifficulty(old(ever), genesis, current.hash) ==>
                HeaviestOf(headers.Keys, ever, genesis, current.hash)
    {
      HeadSurvives(headers, ever, canon, genesis, current, header);
      if Heaviest() { HeavierOfTwo(headers.Keys, ever, genesis, current.hash, header); }
      if Tree(headers, genesis) { TreeExtends(headers, genesis, header); }
      assert headers[header.hash := header].Keys == headers.Keys + {header.hash};
      Store(header, td);
    }

    /** Makes a stored header the head: clears the index above it and rewrites it below until it agrees. */
    method Reroute(header: Header) returns (crashed: bool)
      requires Sound() && Holds(headers, header) && header.number > 0
      modifies this`canon, this`headHashDb, this`current, this`currentHash, this`headerCache
      ensures crashed <==> !Complete(headers, ever, genesis, header.hash)
      ensures !crashed ==> Sound() && current == header
    {
      ClearAbove(header.number);
      canon, headerCache, crashed :=
        RewriteIndex(old(canon), canon, headerCache, headers, ever, genesis, current.hash, header);
      if !crashed {
        MoveTo(header);
      }
    }

    /** Makes a header the head, in memory and in the database. */
    method MoveTo(header: Header)
      modifies this`headHashDb, this`current, this`currentHash
      ensures current == header && currentHash == headHashDb == header.hash
    {
      headHashDb, currentHash, current := header.hash, header.hash, header;
    }

    /**
     Every run of header writes.  Afterwards the index is exactly the head's ancestry, every stored
     total difficulty is a path sum, and no known header is heavier than the head, whichever way
     the ties fell.
     */
    method Run(arrivals: seq<Header>, coins: nat -> bool)
      requires Valid() && Heaviest()
      requires forall h :: h in arrivals ==>
                 preimage(h.hash) == h && h.hash != NO_HASH && h.number == preimage(h.parent).number + 1
      modifies this
      ensures Valid() && Heaviest()
      ensures Within(old(headers), headers)
      ensures forall n: nat :: n in canon <==> n <= current.number
      ensures forall n: nat :: n in canon ==> canon[n] == AncestorAt(headers, genesis, current.hash, n)
      ensures forall k :: k in headers ==>
                k in tds && tds[k].td == TotalDifficulty(headers, genesis, k) <= tds[current.hash].td
    {
      for i := 0 to |arrivals|
        invariant Valid() && Heaviest() && Within(old(headers), headers)
      {
        var h := arrivals[i];
        assert h in arrivals && (h.parent in headers ==> ever[h.parent] == preimage(h.parent));
        var status, crashed := InsertOrKeep(h, coins(i));
      }
      Spelled(headers, ever, tds, numbers, canon, genesis, preimage, current);
    }

    /**
     Every run of writes and rewinds, up to the first reroute that meets a missing header.  The
     index stays exactly the head's ancestry, which stays stored, and every stored total difficulty
     a path sum, even of side headers that have lost ancestors.  The head may be lighter than a
     header that a rewind left on the side, but only from the first rewind on; headers lose
     ancestors, and a reroute can fail, only from the first rewind on that strands a side header.
     */
    method RunMixed(ops: seq<Op>) returns (crashed: bool, ghost stranded: bool)
      requires Sound()
      requires forall op :: op in ops && op.Arrive? ==>
                 preimage(op.header.hash) == op.header && op.header.hash != NO_HASH
                 && op.header.number == preimage(op.header.parent).number + 1
      modifies this
      ensures old(Valid()) && !stranded ==> !crashed && Valid()
      ensures old(Heaviest()) && !crashed && (forall op :: op in ops ==> op.Arrive?) ==> Sound() && Heaviest()
      ensures stranded ==> exists op :: op in ops && op.GoBack?
      ensures !crashed ==>
                && Sound()
                && (forall n: nat :: n in canon <==> n <= current.number)
                && (forall n: nat :: n in canon ==>
                      canon[n] == AncestorAt(ever, genesis, current.hash, n) && canon[n] in headers)
                && (forall k :: k in headers ==> k in tds && tds[k].td == TotalDifficulty(ever, genesis, k))
    {
      stranded, crashed := false, false;
      for i := 0 to |ops|
        invariant Sound() && (old(Valid()) && !stranded ==> Valid())
        invariant old(Heaviest()) && (forall op :: op in ops ==> op.Arrive?) ==> Heaviest()
        invariant stranded ==> exists op :: op in ops && op.GoBack?
      {
        assert ops[i] in ops;
        match ops[i]
        case Arrive(h, coin) =>
          var status;
          status, crashed := InsertOrKeep(h, coin);
          if crashed {
            return;
          }
        case GoBack(head) =>
          stranded := stranded || !NoForkAbove(headers, canon, head);
          SetHead(head);
      }
      Indexed(headers, ever, tds, numbers, canon, genesis, preimage, current);
    }

    /** WriteHeader, remembering only that nothing known is lost. */
    method InsertOrKeep(header: Header, coin: bool) returns (status: WriteStatus, crashed: bool)
      requires Sound() && preimage(header.hash) == header && header.hash != NO_HASH
      requires header.parent in headers ==> header.number == headers[header.parent].number + 1
      modifies this
      ensures crashed ==> header.parent in old(headers) && !Complete(old(headers), old(ever), genesis, header.parent)
      ensures !crashed ==> Sound() && (old(Heaviest()) ==> Heaviest())
      ensures old(Valid()) ==> !crashed && Valid()
      ensures Within(old(headers), headers)
      ensures if status == UnknownAncestor then header.parent !in old(headers) && headers == old(headers)
                else && Holds(headers, header)
                     && headers == old(headers)[header.hash := header] && ever == old(ever)[header.hash := header]
    {
      status, crashed := WriteHeader(header, coin);
    }

    /** Whether a header is in the caches or the database. */
    method HasHeader(hash: Hash, number: nat) returns (r: bool)
      requires Sound()
      ensures r <==> hash in headers && (hash in numberCache || hash in headerCache || headers[hash].number == number)
    {
      if hash in numberCache || hash in headerCache {
        return true;
      }
      return hash in headers && headers[hash].number == number;
    }

    /**
     Imports a chain of headers that are linked to each other.  Either all of them are known
     afterwards or the first one has no known ancestor, in which case nothing changes.  Only a
     chain whose first header lacks an ancestor can fail to be rerouted onto.
     */
    method InsertHeaderChain(chain: seq<Header>, coins: nat -> bool) returns (ok: bool, crashed: bool)
      requires Sound() && LinkedChain(chain)
      requires forall h :: h in chain ==> preimage(h.hash) == h && h.hash != NO_HASH
      requires chain != [] && chain[0].parent in headers ==> chain[0].number == headers[chain[0].parent].number + 1
      modifies this
      ensures !crashed ==> Sound() && (old(Heaviest()) ==> Heaviest())
      ensures old(Valid()) ==> !crashed && Valid()
      ensures crashed ==> chain != [] && (chain[0].parent in old(headers) ==>
                                            !Complete(old(headers), old(ever), genesis, chain[0].parent))
      ensures Within(old(headers), headers)
      ensures ok ==> forall h :: h in chain ==> Holds(headers, h)
      ensures !ok && !crashed ==> chain != [] && chain[0].parent !in old(headers) && headers == old(headers)
    {
      ghost var hs, was, heaviest, valid := headers, ever, Heaviest(), Valid();
      for i := 0 to |chain|
        invariant Sound() && (heaviest ==> Heaviest()) && (valid ==> Valid())
        invariant i == 0 ==> headers == hs && ever == was
        invariant Within(hs, headers) && ImportedUpTo(chain, i, headers)
        invariant i > 0 && chain[0].parent in hs && Complete(hs, was, genesis, chain[0].parent) ==>
                    Complete(headers, ever, genesis, chain[i - 1].hash)
      {
        assert chain[i] in chain && (i > 0 ==> Holds(headers, chain[i - 1]));
        ghost var before := headers;
        ok, crashed := InsertOne(chain[i], coins(i));
        if !ok {
          return;
        }
        ImportedNext(chain, i, before, headers);
      }
      return true, false;
    }

    /** Writes one header unless it is known already. */
    method InsertOne(header: Header, coin: bool) returns (ok: bool, crashed: bool)
      requires Sound() && preimage(header.hash) == header && header.hash != NO_HASH
      requires header.parent in headers ==> header.number == headers[header.parent].number + 1
      modifies this
      ensures !crashed ==> Sound() && (old(Heaviest()) ==> Heaviest())
      ensures old(Valid()) ==> !crashed && Valid()
      ensures crashed ==> !ok && header.parent in old(headers)
                          && !Complete(old(headers), old(ever), genesis, header.parent)
      ensures Within(old(headers), headers)
      ensures ok ==> Holds(headers, header) && Sound()
      ensures ok && header.parent in old(headers) && Complete(old(headers), old(ever), genesis, header.parent) ==>
                Complete(headers, ever, genesis, header.hash)
      ensures !ok && !crashed ==> header.parent !in old(headers) && headers == old(headers)
    {
      ghost var hs, was := headers, ever;
      if header.parent in headers { ChildComplete(hs, was, genesis, header); }
      var known := HasHeader(header.hash, header.number);
      if known {
        assert headers[header.hash := header] == headers && ever[header.hash := header] == ever;
        return true, false;
      }
      var status;
      status, crashed := InsertOrKeep(header, coin);
      return status != UnknownAncestor && !crashed, crashed;
    }

    /** Deletes index entries from one above the given number on, up to the first missing one. */
    method ClearAbove(number: nat)
      requires Sound()
      modifies this`canon
      ensures forall n: nat :: n in canon <==> n in old(canon) && n <= number
      ensures forall n: nat :: n in canon ==> canon[n] == old(canon)[n]
    {
      IndexFacts(canon, ever, genesis, current.hash);
      var i := number + 1;
      while Read(canon, i) != NO_HASH
        invariant number < i
        invariant forall n: nat :: n in canon <==> n in old(canon) && !(number < n < i)
        invariant forall n: nat :: n in canon ==> canon[n] == old(canon)[n]
        decreases current.number + 1 - i
      {
        canon := canon - {i};
        i := i + 1;
      }
    }

    /**
     Rewinds the head to the given height.  The index keeps exactly its entries up to there, the
     head is the canonical header there, the caches are empty and the rewound canonical headers
     are gone.  Side headers stay, so a tree stays a tree exactly when none of them forked off a
     rewound header.
     */
    method SetHead(head: nat)
      requires Sound()
      modifies this
      ensures RewoundTo(old(headers), old(ever), old(canon), genesis, old(current), head, headers, canon, current)
      ensures ever == old(ever) && currentHash == headHashDb == current.hash
      ensures headerCache == map[] && tdCache == map[] && numberCache == map[]
      ensures Sound()
      ensures old(Valid()) ==> (NoForkAbove(old(headers), old(canon), head) <==> Valid())
    {
      var hs, t, n, cur, index :=
        Rewind(headers, ever, tds, numbers, headerCache, genesis, preimage, canon, current, head);
      Adopt(hs, t, n, cur, index);
    }

    /** Takes over a rewound database and purges the caches. */
    method Adopt(hs: Headers, t: map<Hash, TdEntry>, n: map<Hash, nat>, cur: Header, index: map<nat, Hash>)
      modifies this
      ensures headers == hs && ever == old(ever) && tds == t && numbers == n && canon == index
      ensures current == cur && currentHash == headHashDb == cur.hash
      ensures headerCache == map[] && tdCache == map[] && numberCache == map[]
    {
      canon := index;
      SetDatabase(hs, t, n);
      SetCaches(map[], map[], map[]);
      MoveTo(cur);
    }
  }

  /** The three database and cache writes of a header. */
  method StoreEntry(hs: Headers, ghost ever: Headers, tds: map<Hash, TdEntry>, numbers: map<Hash, nat>,
                    hsCached: map<Hash, Header>, tdsCached: map<Hash, TdEntry>, nsCached: map<Hash, nat>,
                    ghost genesis: Header, ghost preimage: Hash -> Header, header: Header, td: int)
    returns (h: Headers, t: map<Hash, TdEntry>, n: map<Hash, nat>,
             hc: map<Hash, Header>, tc: map<Hash, TdEntry>, nc: map<Hash, nat>)
    requires StoredOk(hs, ever, tds, numbers, hsCached, tdsCached, nsCached, genesis, preimage)
    requires preimage(header.hash) == header && header.hash != NO_HASH
    requires header.parent in hs && header.number == hs[header.parent].number + 1
    requires td == header.difficulty + TotalDifficulty(ever, genesis, header.parent)
    ensures h == hs[header.hash := header]
    ensures StoredOk(h, ever[header.hash := header], t, n, hc, tc, nc, genesis, preimage)
  {
    StoreKeepsDb(hs, ever, tds, numbers, genesis, preimage, header, td);
    h, hc := StoreIn(hs, hsCached, header.hash, header);
    t, tc := StoreIn(tds, tdsCached, header.hash, TdEntry(header.number, td));
    n, nc := StoreIn(numbers, nsCached, header.hash, header.number);
  }

  method Rewind(hs: Headers, ghost ever: Headers, tds: map<Hash, TdEntry>, numbers: map<Hash, nat>,
                cache: map<Hash, Header>, genesis: Header, ghost preimage: Hash -> Header, index: map<nat, Hash>,
                top: Header, head: nat)
    returns (r: Headers, newTds: map<Hash, TdEntry>, newNumbers: map<Hash, nat>, current: Header, canon: map<nat, Hash>)
    requires DbOk(hs, ever, tds, numbers, genesis, preimage) && HeadOk(index, hs, ever, genesis, top)
    requires CacheAgrees(cache, hs)
    ensures RewoundTo(hs, ever, index, genesis, top, head, r, canon, current)
    ensures DbOk(r, ever, newTds, newNumbers, genesis, preimage) && HeadOk(canon, r, ever, genesis, current)
    ensures Tree(hs, genesis) ==> (Tree(r, genesis) <==> NoForkAbove(hs, index, head))
  {
    r, newTds, newNumbers, current := DropHeaders(hs, ever, tds, numbers, cache, genesis, index, top, head);
    canon := DeleteIndex(index, top.number, head);
    RewoundDb(hs, ever, tds, numbers, r, newTds, newNumbers, genesis, preimage);
    RewoundIndex(hs, ever, index, genesis, top, head);
    if Tree(hs, genesis) {
      IndexWithin(index, hs, ever, genesis, top.hash);
      RewoundTree(hs, index, genesis, top.hash, head);
    }
  }

  /** GetHeader: right for every header in the database, even when the cache also holds deleted ones of `hs`. */
  method GetHeader(cache: map<Hash, Header>, db: Headers, hash: Hash, number: nat, ghost hs: Headers)
    returns (h: Option<Header>, r: map<Hash, Header>)
    requires CacheAgrees(cache, hs) && Within(db, hs)
    ensures CacheAgrees(r, hs)
    ensures hash in db && db[hash].number == number ==> h == Some(db[hash])
    ensures hash !in hs ==> h == None
  {
    if hash in cache {
      return Some(cache[hash]), cache;
    }
    if hash !in db || db[hash].number != number {
      return None, cache;
    }
    r := LruAdd(cache, hash, db[hash]);
    h := Some(db[hash]);
  }

  /**
   The reroute loop of WriteHeader: walks down from the new head until the index already agrees.
   It meets a missing header, which it dereferences, exactly when an ancestor is not stored.
   */
  method RewriteIndex(ghost was: map<nat, Hash>, cleared: map<nat, Hash>, cache: map<Hash, Header>,
                      hs: Headers, ghost ever: Headers, genesis: Header, ghost oldHead: Hash, header: Header)
    returns (canon: map<nat, Hash>, r: map<Hash, Header>, crashed: bool)
    requires Tree(ever, genesis) && Within(hs, ever) && NO_HASH !in ever && CacheAgrees(cache, hs)
    requires Indexes(was, ever, genesis, oldHead) && Complete(hs, ever, genesis, oldHead)
    requires Holds(hs, header) && header.number > 0
    requires forall n: nat :: n in cleared <==> n in was && n <= header.number
    requires forall n: nat :: n in cleared ==> cleared[n] == was[n]
    ensures crashed <==> !Complete(hs, ever, genesis, header.hash)
    ensures CacheAgrees(r, hs) && (!crashed ==> Indexes(canon, ever, genesis, header.hash))
  {
    GenesisIndexed(was, ever, genesis, oldHead);
    canon, r, crashed := cleared, cache, false;
    assert Linked(ever, genesis, header.hash);
    var headHash, headNumber, headHeader := header.parent, header.number - 1, None;
    headHeader, r := GetHeader(r, hs, headHash, headNumber, hs);
    while Read(canon, headNumber) != headHash
      invariant CacheAgrees(r, hs) && 0 <= headNumber < header.number
      invariant headHash == AncestorAt(ever, genesis, header.hash, headNumber)
      invariant headHeader == if headHash in hs then Some(ever[headHash]) else None
      invariant Rewritten(was, canon, ever, genesis, header.hash, headNumber)
      invariant StoredAbove(hs, ever, genesis, header.hash, headNumber)
      decreases headNumber
    {
      RewriteStep(was, canon, ever, genesis, header.hash, headNumber);
      canon := canon[headNumber := headHash];
      if headHeader.None? {
        assert !StoredAt(hs, ever, genesis, header.hash, headNumber);
        return canon, r, true;
      }
      assert StoredAt(hs, ever, genesis, header.hash, headNumber);
      headHash := headHeader.value.parent;
      headNumber := headHeader.value.number - 1;
      headHeader, r := GetHeader(r, hs, headHash, headNumber, hs);
    }
    RewriteDone(was, canon, ever, genesis, oldHead, header.hash, headNumber);
    RestStored(was, hs, ever, genesis, oldHead, header.hash, headNumber);
    canon := canon[header.number := header.hash];
  }

  function Read(canon: map<nat, Hash>, n: nat): Hash {
    if n in canon then canon[n] else NO_HASH
  }

  /** The loop of SetHead that deletes headers from the head down. */
  method DropHeaders(hs: Headers, ghost ever: Headers, tds: map<Hash, TdEntry>, numbers: map<Hash, nat>,
                     cache: map<Hash, Header>, genesis: Header, ghost index: map<nat, Hash>, top: Header, head: nat)
    returns (r: Headers, newTds: map<Hash, TdEntry>, newNumbers: map<Hash, nat>, current: Header)
    requires Tree(ever, genesis) && Within(hs, ever) && Holds(hs, top) && CacheAgrees(cache, hs)
    requires Indexes(index, ever, genesis, top.hash) && Complete(hs, ever, genesis, top.hash)
    requires tds.Keys == numbers.Keys == hs.Keys
    ensures current == ever[AncestorAt(ever, genesis, top.hash, Min(head, top.number))]
    ensures r == Rewound(hs, index, head)
    ensures newTds == Restrict(tds, r.Keys)
    ensures newNumbers == Restrict(numbers, r.Keys)
  {
    IndexFacts(index, ever, genesis, top.hash);
    RewoundNothing(hs, index, top.number);
    r, newTds, newNumbers, current := hs, tds, numbers, top;
    var c := cache;
    while current.number > head
      invariant Min(head, top.number) <= current.number <= top.number
      invariant Holds(hs, current) && OnIndex(hs, index, current.hash)
      invariant r == Rewound(hs, index, current.number)
      invariant newTds.Keys == newNumbers.Keys == r.Keys
      invariant (forall k :: k in r ==> newTds[k] == tds[k] && newNumbers[k] == numbers[k])
      invariant CacheAgrees(c, hs)
      decreases current.number
    {
      var hdr := current;
      StepDown(hs, ever, index, genesis, top.hash, hdr);
      r := r - {hdr.hash};
      newNumbers := newNumbers - {hdr.hash};
      newTds := newTds - {hdr.hash};
      var parent;
      parent, c := GetHeader(c, r, hdr.parent, hdr.number - 1, hs);
      current := parent.value;
    }
    RewoundBelow(hs, index, top.number, current.number, head);
    assert IndexedAt(index, ever, genesis, top.hash, current.number);
  }

  function DeleteIndex(canon: map<nat, Hash>, height: nat, head: nat): (r: map<nat, Hash>)
    requires forall n: nat :: n in canon ==> n <= height
    ensures r == UpTo(canon, head)
    decreases height
  {
    if height <= head then canon
    else
      var r := DeleteIndex(canon - {height}, height - 1, head);
      r
  }

  function UpTo(canon: map<nat, Hash>, head: nat): map<nat, Hash> {
    map n | n in canon && n <= head :: canon[n]
  }

  function Restrict<V>(m: map<Hash, V>, keys: set<Hash>): map<Hash, V> {
    map k | k in m && k in keys :: m[k]
  }

  predicate OnIndex(hs: Headers, index: map<nat, Hash>, k: Hash)
    requires k in hs
  {
    hs[k].number in index && index[hs[k].number] == k
  }

  /** What is left once the canonical headers above a height are deleted. */
  function Rewound(hs: Headers, index: map<nat, Hash>, head: nat): Headers {
    map k | k in hs && !(head < hs[k].number && OnIndex(hs, index, k)) :: hs[k]
  }

  /** The result of rewinding: the index cut off, the canonical header at the cut, the rest of the headers. */
  ghost predicate RewoundTo(hs: Headers, ever: Headers, index: map<nat, Hash>, genesis: Header, top: Header, head: nat,
                            r: Headers, canon: map<nat, Hash>, current: Header)
    requires Tree(ever, genesis) && Holds(ever, top)
  {
    && canon == UpTo(index, head)
    && current == ever[AncestorAt(ever, genesis, top.hash, Min(head, top.number))]
    && r == Rewound(hs, index, head)
  }

  /** No side header has a canonical parent above the height. */
  predicate NoForkAbove(hs: Headers, index: map<nat, Hash>, head: nat) {
    forall k {:trigger ForksAbove(hs, index, head, k)} :: k in hs ==> !ForksAbove(hs, index, head, k)
  }

  predicate ForksAbove(hs: Headers, index: map<nat, Hash>, head: nat, k: Hash) {
    && k in hs && !OnIndex(hs, index, k)
    && hs[k].parent in hs && OnIndex(hs, index, hs[k].parent) && head < hs[hs[k].parent].number
  }

  lemma RewoundNothing(hs: Headers, index: map<nat, Hash>, height: nat)
    requires forall n: nat :: n in index ==> n <= height
    ensures Rewound(hs, index, height) == hs
  {
  }

  lemma StepDown(hs: Headers, ever: Headers, index: map<nat, Hash>, genesis: Header, top: Hash, hdr: Header)
    requires Tree(ever, genesis) && Within(hs, ever)
    requires Indexes(index, ever, genesis, top) && Complete(hs, ever, genesis, top)
    requires Holds(hs, hdr) && 0 < hdr.number <= ever[top].number && OnIndex(hs, index, hdr.hash)
    ensures hdr.parent in hs && hs[hdr.parent].hash == hdr.parent && hs[hdr.parent].number == hdr.number - 1
    ensures OnIndex(hs, index, hdr.parent)
    ensures Rewound(hs, index, hdr.number - 1) == Rewound(hs, index, hdr.number) - {hdr.hash}
    ensures hdr.parent in Rewound(hs, index, hdr.number) - {hdr.hash}
  {
    assert Linked(ever, genesis, hdr.hash);
    assert IndexedAt(index, ever, genesis, top, hdr.number) && IndexedAt(index, ever, genesis, top, hdr.number - 1);
    assert StoredAt(hs, ever, genesis, top, hdr.number - 1);
    AncestorsCompose(ever, genesis, top, hdr.number, hdr.number - 1);
    assert AncestorAt(ever, genesis, hdr.hash, hdr.number - 1) == hdr.parent;
    assert Linked(ever, genesis, hdr.parent);
  }

  lemma RewoundBelow(hs: Headers, index: map<nat, Hash>, height: nat, reached: nat, head: nat)
    requires forall n: nat :: n in index ==> n <= height
    requires reached == Min(head, height)
    ensures Rewound(hs, index, reached) == Rewound(hs, index, head)
  {
  }

  const GENESIS := Header(1, 0, 0, 1)
  const CHILD := Header(2, 1, 1, 1)
  const GRANDCHILD := Header(3, 2, 2, 2)
  const SIDE := Header(4, 2, 2, 1)
  const NEXT := Header(5, 4, 3, 1)

  function FiveHeaders(hash: Hash): Header {
    if hash == 5 then NEXT else if hash == 4 then SIDE else if hash == 3 then GRANDCHILD
    else if hash == 2 then CHILD else GENESIS
  }

  /** Two header writes, each heavier than the head. */
  method Grown() returns (c: Chain)
    ensures fresh(c) && c.genesis == GENESIS && c.preimage == FiveHeaders && c.current == GRANDCHILD
    ensures c.headers == c.ever == map[1 := GENESIS, 2 := CHILD, 3 := GRANDCHILD]
    ensures c.Valid()
  {
    c := new Chain(GENESIS, FiveHeaders);
    var status, crashed := c.WriteHeader(CHILD, false);
    Sum1(c.ever);
    status, crashed := c.WriteHeader(GRANDCHILD, false);
  }

  /** A third write goes on the side. */
  method Forked() returns (c: Chain)
    ensures fresh(c) && c.genesis == GENESIS && c.preimage == FiveHeaders && c.current == GRANDCHILD
    ensures c.headers == c.ever == map[1 := GENESIS, 2 := CHILD, 3 := GRANDCHILD, 4 := SIDE]
    ensures c.Valid()
  {
    c := Grown();
    Sum2(c.ever);
    var status, crashed := c.WriteHeader(SIDE, false);
  }

  /**
   Three header writes and a rewind that strands one of them: the canonical child is deleted under
   the side header, whose parent it is.
   */
  method RewindStrands() returns (c: Chain)
    ensures fresh(c) && c.genesis == GENESIS && c.preimage == FiveHeaders && c.current == GENESIS
    ensures c.headers == map[1 := GENESIS, 4 := SIDE]
    ensures c.ever == map[1 := GENESIS, 2 := CHILD, 3 := GRANDCHILD, 4 := SIDE]
    ensures c.Sound() && !c.Valid()
  {
    c := Forked();
    Stranded(c.ever, c.canon);
    c.SetHead(0);
  }

  /** A header on top of the stranded one is heavier than the head, but cannot be rerouted onto. */
  method RerouteFails() returns (crashed: bool)
    ensures crashed
  {
    var c := RewindStrands();
    Orphaned(c.headers, c.ever);
    var status;
    status, crashed := c.WriteHeader(NEXT, false);
  }

  lemma Sum1(hs: Headers)
    requires hs == map[1 := GENESIS, 2 := CHILD] && Tree(hs, GENESIS)
    ensures TotalDifficulty(hs, GENESIS, 2) == 2
  {
    assert TotalDifficulty(hs, GENESIS, 1) == 1;
  }

  lemma Sum2(hs: Headers)
    requires hs == map[1 := GENESIS, 2 := CHILD, 3 := GRANDCHILD] && Tree(hs, GENESIS)
    ensures TotalDifficulty(hs, GENESIS, 2) == 2 && TotalDifficulty(hs, GENESIS, 3) == 4
  {
    assert TotalDifficulty(hs, GENESIS, 1) == 1;
  }

  lemma Stranded(hs: Headers, canon: map<nat, Hash>)
    requires hs == map[1 := GENESIS, 2 := CHILD, 3 := GRANDCHILD, 4 := SIDE] && Tree(hs, GENESIS)
    requires Indexes(canon, hs, GENESIS, 3)
    ensures !NoForkAbove(hs, canon, 0) && Rewound(hs, canon, 0) == map[1 := GENESIS, 4 := SIDE]
    ensures AncestorAt(hs, GENESIS, 3, 0) == 1
  {
    assert IndexedAt(canon, hs, GENESIS, 3, 2) && IndexedAt(canon, hs, GENESIS, 3, 1);
    assert AncestorAt(hs, GENESIS, 3, 2) == 3;
    assert AncestorAt(hs, GENESIS, 3, 1) == AncestorAt(hs, GENESIS, 2, 1) == 2;
    RootIsGenesis(hs, GENESIS, AncestorAt(hs, GENESIS, 3, 0));
    assert ForksAbove(hs, canon, 0, 4);
  }

  lemma Orphaned(hs: Headers, ever: Headers)
    requires ever == map[1 := GENESIS, 2 := CHILD, 3 := GRANDCHILD, 4 := SIDE] && Tree(ever, GENESIS)
    requires hs == map[1 := GENESIS, 4 := SIDE]
    ensures TotalDifficulty(ever, GENESIS, 4) == 3 && TotalDifficulty(ever, GENESIS, 1) == 1
    ensures !Complete(hs, ever, GENESIS, 4)
  {
    assert TotalDifficulty(ever, GENESIS, 2) == 2;
    assert AncestorAt(ever, GENESIS, 4, 1) == AncestorAt(ever, GENESIS, 2, 1) == 2;
    assert !StoredAt(hs, ever, GENESIS, 4, 1);
  }

  /** The rest is a tree again exactly when no side header forked off a deleted one. */
  lemma RewoundTree(hs: Headers, index: map<nat, Hash>, genesis: Header, top: Hash, head: nat)
    requires Tree(hs, genesis) && Indexes(index, hs, genesis, top)
    ensures Tree(Rewound(hs, index, head), genesis) <==> NoForkAbove(hs, index, head)
  {
    var r := Rewound(hs, index, head);
    if NoForkAbove(hs, index, head) {
      forall k | k in r ensures Linked(r, genesis, k) {
        assert Linked(hs, genesis, k) && !ForksAbove(hs, index, head, k);
      }
    } else {
      var k :| k in hs && ForksAbove(hs, index, head, k);
      GenesisIndexed(index, hs, genesis, top);
      assert k in r && k != genesis.hash;
      assert !Linked(r, genesis, k);
    }
  }

  lemma RewoundDb(hs: Headers, ever: Headers, tds: map<Hash, TdEntry>, numbers: map<Hash, nat>, r: Headers,
                  newTds: map<Hash, TdEntry>, newNumbers: map<Hash, nat>, genesis: Header, preimage: Hash -> Header)
    requires DbOk(hs, ever, tds, numbers, genesis, preimage) && Within(r, hs)
    requires newTds == Restrict(tds, r.Keys)
    requires newNumbers == Restrict(numbers, r.Keys)
    ensures DbOk(r, ever, newTds, newNumbers, genesis, preimage)
  {
    forall k | k in r ensures EntryOk(ever, newTds, newNumbers, genesis, k) {
      assert EntryOk(ever, tds, numbers, genesis, k);
    }
  }

  /** The index up to a height is the ancestry of the canonical header there, none of which is deleted. */
  lemma RewoundIndex(hs: Headers, ever: Headers, index: map<nat, Hash>, genesis: Header, top: Header, head: nat)
    requires Tree(ever, genesis) && Within(hs, ever) && HeadOk(index, hs, ever, genesis, top)
    ensures var at := AncestorAt(ever, genesis, top.hash, Min(head, top.number));
            HeadOk(UpTo(index, head), Rewound(hs, index, head), ever, genesis, ever[at])
  {
    var at := Min(head, top.number);
    var canon, r := UpTo(index, head), Rewound(hs, index, head);
    var new_ := AncestorAt(ever, genesis, top.hash, at);
    assert IndexedAt(index, ever, genesis, top.hash, at) && StoredAt(hs, ever, genesis, top.hash, at);
    assert Linked(ever, genesis, new_);
    forall n: nat | n <= at ensures IndexedAt(canon, ever, genesis, new_, n) && StoredAt(r, ever, genesis, new_, n) {
      assert IndexedAt(index, ever, genesis, top.hash, n) && StoredAt(hs, ever, genesis, top.hash, n);
      AncestorsCompose(ever, genesis, top.hash, at, n);
    }
  }

  /** A tree within a larger one has the same index. */
  lemma IndexWithin(index: map<nat, Hash>, hs: Headers, ever: Headers, genesis: Header, head: Hash)
    requires Tree(ever, genesis) && Tree(hs, genesis) && Within(hs, ever)
    requires head in hs && Indexes(index, ever, genesis, head)
    ensures Indexes(index, hs, genesis, head)
  {
    forall n: nat | n <= hs[head].number ensures IndexedAt(index, hs, genesis, head, n) {
      assert IndexedAt(index, ever, genesis, head, n);
      AncestorsAgree(hs, ever, genesis, head, n);
    }
  }

  /** In a tree no header lacks an ancestor. */
  lemma TreeIsComplete(hs: Headers, ever: Headers, genesis: Header, k: Hash)
    requires Tree(ever, genesis) && Tree(hs, genesis) && Within(hs, ever) && k in hs
    ensures Complete(hs, ever, genesis, k)
  {
    forall n: nat | n <= ever[k].number ensures StoredAt(hs, ever, genesis, k, n) {
      AncestorsAgree(hs, ever, genesis, k, n);
    }
  }

  /** A header that is stored lacks an ancestor exactly when its parent did. */
  lemma ChildComplete(hs: Headers, ever: Headers, genesis: Header, header: Header)
    requires Tree(ever, genesis) && Within(hs, ever)
    requires header.hash in ever ==> ever[header.hash] == header
    requires header.parent in hs && header.number == hs[header.parent].number + 1
    ensures var more, all := hs[header.hash := header], ever[header.hash := header];
            && Tree(all, genesis)
            && (Complete(more, all, genesis, header.hash) <==> Complete(hs, ever, genesis, header.parent))
  {
    TreeExtends(ever, genesis, header);
    var more, all := hs[header.hash := header], ever[header.hash := header];
    forall n: nat | n < header.number
      ensures StoredAt(more, all, genesis, header.hash, n) <==> StoredAt(hs, ever, genesis, header.parent, n)
    {
      AncestorsAgree(ever, all, genesis, header.parent, n);
      assert AncestorAt(all, genesis, header.hash, n) == AncestorAt(ever, genesis, header.parent, n);
    }
    assert StoredAt(more, all, genesis, header.hash, header.number);
    if Complete(more, all, genesis, header.hash) {
      forall n: nat | n < header.number ensures StoredAt(hs, ever, genesis, header.parent, n) {
        assert StoredAt(more, all, genesis, header.hash, n);
      }
    }
  }

  /** Each header is the child of the one before it. */
  predicate LinkedChain(chain: seq<Header>) {
    forall i :: 0 < i < |chain| ==> chain[i].parent == chain[i - 1].hash && chain[i].number == chain[i - 1].number + 1
  }

  ghost predicate ImportedUpTo(chain: seq<Header>, i: nat, hs: Headers)
    requires i <= |chain|
  {
    forall j :: 0 <= j < i ==> Holds(hs, chain[j])
  }

  lemma ImportedNext(chain: seq<Header>, i: nat, before: Headers, hs: Headers)
    requires i < |chain| && ImportedUpTo(chain, i, before) && Within(before, hs) && Holds(hs, chain[i])
    ensures ImportedUpTo(chain, i + 1, hs)
  {
  }

  /** The sanity check of ValidateHeaderChain. */
  method ValidateLinks(chain: seq<Header>) returns (ok: bool)
    ensures ok == LinkedChain(chain)
  {
    var i := 1;
    while i < |chain|
      invariant 1 <= i
      invariant forall j :: 0 < j < i && j < |chain| ==>
                  chain[j].parent == chain[j - 1].hash && chain[j].number == chain[j - 1].number + 1
    {
      if chain[i].number != chain[i - 1].number + 1 || chain[i].parent != chain[i - 1].hash {
        return false;
      }
      i := i + 1;
    }
    return true;
  }

  lemma Indexed(hs: Headers, ever: Headers, tds: map<Hash, TdEntry>, numbers: map<Hash, nat>, canon: map<nat, Hash>,
                genesis: Header, preimage: Hash -> Header, current: Header)
    requires DbOk(hs, ever, tds, numbers, genesis, preimage) && HeadOk(canon, hs, ever, genesis, current)
    ensures forall n: nat :: n in canon <==> n <= current.number
    ensures forall n: nat :: n in canon ==> canon[n] == AncestorAt(ever, genesis, current.hash, n) && canon[n] in hs
    ensures forall k :: k in hs ==> k in tds && tds[k].td == TotalDifficulty(ever, genesis, k)
  {
    forall n: nat | n <= current.number
      ensures n in canon && canon[n] == AncestorAt(ever, genesis, current.hash, n) && canon[n] in hs
    {
      assert IndexedAt(canon, ever, genesis, current.hash, n) && StoredAt(hs, ever, genesis, current.hash, n);
    }
    forall k | k in hs ensures tds[k].td == TotalDifficulty(ever, genesis, k) {
      assert EntryOk(ever, tds, numbers, genesis, k);
    }
  }

  lemma Spelled(hs: Headers, ever: Headers, tds: map<Hash, TdEntry>, numbers: map<Hash, nat>, canon: map<nat, Hash>,
                genesis: Header, preimage: Hash -> Header, current: Header)
    requires DbOk(hs, ever, tds, numbers, genesis, preimage) && HeadOk(canon, hs, ever, genesis, current)
    requires Tree(hs, genesis) && HeaviestOf(hs.Keys, ever, genesis, current.hash)
    ensures forall n: nat :: n in canon <==> n <= current.number
    ensures forall n: nat :: n in canon ==> canon[n] == AncestorAt(hs, genesis, current.hash, n)
    ensures forall k :: k in hs ==> k in tds && tds[k].td == TotalDifficulty(hs, genesis, k) <= tds[current.hash].td
  {
    Indexed(hs, ever, tds, numbers, canon, genesis, preimage, current);
    forall n: nat | n <= current.number ensures canon[n] == AncestorAt(hs, genesis, current.hash, n) {
      AncestorsAgree(hs, ever, genesis, current.hash, n);
    }
    forall k | k in hs ensures tds[k].td == TotalDifficulty(hs, genesis, k) <= tds[current.hash].td {
      assert NoHeavier(ever, genesis, k, current.hash);
      DifficultiesAgree(hs, ever, genesis, k);
    }
  }

  lemma StoreKeepsDb(hs: Headers, ever: Headers, tds: map<Hash, TdEntry>, numbers: map<Hash, nat>, genesis: Header,
                     preimage: Hash -> Header, header: Header, td: int)
    requires DbOk(hs, ever, tds, numbers, genesis, preimage)
    requires preimage(header.hash) == header && header.hash != NO_HASH
    requires header.parent in hs && header.number == hs[header.parent].number + 1
    requires td == header.difficulty + TotalDifficulty(ever, genesis, header.parent)
    ensures DbOk(hs[header.hash := header], ever[header.hash := header],
                 tds[header.hash := TdEntry(header.number, td)], numbers[header.hash := header.number],
                 genesis, preimage)
  {
    TreeExtends(ever, genesis, header);
    var r, all := hs[header.hash := header], ever[header.hash := header];
    var newTds, newNumbers := tds[header.hash := TdEntry(header.number, td)], numbers[header.hash := header.number];
    assert Linked(all, genesis, header.hash);
    DifficultiesAgree(ever, all, genesis, header.parent);
    forall k | k in r ensures EntryOk(all, newTds, newNumbers, genesis, k) {
      if k != header.hash {
        assert EntryOk(ever, tds, numbers, genesis, k);
        DifficultiesAgree(ever, all, genesis, k);
      }
    }
  }

  /** Storing another header does not change the head's ancestry. */
  lemma HeadSurvives(hs: Headers, ever: Headers, canon: map<nat, Hash>, genesis: Header, current: Header,
                     header: Header)
    requires Tree(ever, genesis) && HeadOk(canon, hs, ever, genesis, current)
    requires header.hash in ever ==> ever[header.hash] == header
    requires header.parent in ever && header.number == ever[header.parent].number + 1
    ensures var all := ever[header.hash := header];
            Tree(all, genesis) && HeadOk(canon, hs[header.hash := header], all, genesis, current)
  {
    var r, all := hs[header.hash := header], ever[header.hash := header];
    TreeExtends(ever, genesis, header);
    IndexAgrees(canon, ever, all, genesis, current.hash);
    forall n: nat | n <= current.number ensures StoredAt(r, all, genesis, current.hash, n) {
      assert StoredAt(hs, ever, genesis, current.hash, n);
      AncestorsAgree(ever, all, genesis, current.hash, n);
    }
  }

  lemma GenesisIndexed(canon: map<nat, Hash>, hs: Headers, genesis: Header, head: Hash)
    requires Tree(hs, genesis) && IndexesUpTo(canon, hs, genesis, head)
    ensures 0 in canon && canon[0] == genesis.hash
  {
    assert IndexedAt(canon, hs, genesis, head, 0);
    RootIsGenesis(hs, genesis, AncestorAt(hs, genesis, head, 0));
  }

  /**
   How far the index has been rewritten onto the ancestry of `head`: above `down` it follows the
   new ancestry, up to `down` it is still the old one.
   */
  ghost predicate Rewritten(was: map<nat, Hash>, canon: map<nat, Hash>, hs: Headers, genesis: Header, head: Hash,
                            down: nat)
    requires Tree(hs, genesis) && head in hs && down < hs[head].number
  {
    && (forall n: nat {:trigger IndexedAt(canon, hs, genesis, head, n)} ::
          down < n < hs[head].number ==> IndexedAt(canon, hs, genesis, head, n))
    && (forall n: nat :: n <= down ==> (n in canon <==> n in was))
    && (forall n: nat :: n <= down && n in canon ==> canon[n] == was[n])
    && (forall n: nat :: n in canon ==> n <= hs[head].number)
  }

  lemma RewriteStep(was: map<nat, Hash>, canon: map<nat, Hash>, hs: Headers, genesis: Header, head: Hash, down: nat)
    requires Tree(hs, genesis) && head in hs && down < hs[head].number
    requires Rewritten(was, canon, hs, genesis, head, down)
    requires 0 in was && was[0] == genesis.hash
    requires down !in canon || canon[down] != AncestorAt(hs, genesis, head, down)
    ensures down > 0
    ensures Rewritten(was, canon[down := AncestorAt(hs, genesis, head, down)], hs, genesis, head, down - 1)
    ensures var a := hs[AncestorAt(hs, genesis, head, down)];
            a.parent in hs && hs[a.parent].number == down - 1 && a.parent == AncestorAt(hs, genesis, head, down - 1)
  {
    var a := AncestorAt(hs, genesis, head, down);
    assert Linked(hs, genesis, a);
    if down == 0 {
      RootIsGenesis(hs, genesis, a);
    } else {
      AncestorsCompose(hs, genesis, head, down, down - 1);
      assert AncestorAt(hs, genesis, a, down - 1) == AncestorAt(hs, genesis, hs[a].parent, down - 1);
      var r := canon[down := a];
      forall n: nat | down - 1 < n < hs[head].number ensures IndexedAt(r, hs, genesis, head, n) {
        assert n > down ==> IndexedAt(canon, hs, genesis, head, n);
      }
    }
  }

  /** Once the old index agrees with the new ancestry at one height it agrees below. */
  lemma RewriteDone(was: map<nat, Hash>, canon: map<nat, Hash>, hs: Headers, genesis: Header, oldHead: Hash,
                    head: Hash, down: nat)
    requires Tree(hs, genesis) && head in hs && down < hs[head].number
    requires Rewritten(was, canon, hs, genesis, head, down)
    requires Indexes(was, hs, genesis, oldHead)
    requires down in canon && canon[down] == AncestorAt(hs, genesis, head, down)
    ensures Indexes(canon[hs[head].number := head], hs, genesis, head)
  {
    var r := canon[hs[head].number := head];
    assert IndexedAt(was, hs, genesis, oldHead, down);
    forall n: nat | n <= hs[head].number ensures IndexedAt(r, hs, genesis, head, n) {
      if n <= down {
        assert IndexedAt(was, hs, genesis, oldHead, n);
        AncestorsCompose(hs, genesis, oldHead, down, n);
        AncestorsCompose(hs, genesis, head, down, n);
      } else if n < hs[head].number {
        assert IndexedAt(canon, hs, genesis, head, n);
      }
    }
  }
  /** The ancestors above a height are stored. */
  ghost predicate StoredAbove(hs: Headers, ever: Headers, genesis: Header, head: Hash, down: nat)
    requires Tree(ever, genesis) && head in ever && down < ever[head].number
  {
    forall n: nat {:trigger StoredAt(hs, ever, genesis, head, n)} ::
      down < n <= ever[head].number ==> StoredAt(hs, ever, genesis, head, n)
  }

  /** Below the height where the old index agrees, the old head's complete ancestry takes over. */
  lemma RestStored(was: map<nat, Hash>, hs: Headers, ever: Headers, genesis: Header, oldHead: Hash, head: Hash,
                   down: nat)
    requires Tree(ever, genesis) && head in ever && down < ever[head].number
    requires Indexes(was, ever, genesis, oldHead) && Complete(hs, ever, genesis, oldHead)
    requires down in was && was[down] == AncestorAt(ever, genesis, head, down)
    requires StoredAbove(hs, ever, genesis, head, down)
    ensures Complete(hs, ever, genesis, head)
  {
    assert IndexedAt(was, ever, genesis, oldHead, down);
    forall n: nat | n <= down ensures StoredAt(hs, ever, genesis, head, n) {
      assert StoredAt(hs, ever, genesis, oldHead, n);
      AncestorsCompose(ever, genesis, oldHead, down, n);
      AncestorsCompose(ever, genesis, head, down, n);
    }
  }
}
