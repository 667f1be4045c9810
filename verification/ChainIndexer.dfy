/**
 The section index of core/chain_indexer.go.  Sections are processed while the lock is released, so
 any number of head and reorg notifications can come in between any two reads of the chain.
 */
module ChainIndexer {
  import opened Types
  import opened ChainTree

  /** The hash n parent links behind h. */
  ghost function Back(preimage: Hash -> Header, h: Hash, n: nat): Hash
    decreases n
  {
    if n == 0 then h else Back(preimage, preimage(h).parent, n - 1)
  }

  /** The number of the last block of a section. */
  function LastOf(s: nat, size: nat): int {
    (s + 1) * size - 1
  }

  /** The head a section starts from. */
  ghost function Before(heads: map<nat, Hash>, genesisParent: Hash, s: nat): Hash {
    if s == 0 then genesisParent else if s - 1 in heads then heads[s - 1] else NO_HASH
  }

  /** Section s is recorded with its last block, which is sectionSize links ahead of the last of the one before. */
  ghost predicate Recorded(preimage: Hash -> Header, heads: map<nat, Hash>, genesisParent: Hash, size: nat, s: nat) {
    && s in heads && heads[s] != NO_HASH
    && preimage(heads[s]).number == LastOf(s, size)
    && Back(preimage, heads[s], size) == Before(heads, genesisParent, s)
  }

  /** Exactly the first `stored` sections are recorded. */
  ghost predicate SectionsOk(preimage: Hash -> Header, heads: map<nat, Hash>, genesisParent: Hash, size: nat,
                             stored: nat) {
    && (forall s: nat :: s in heads ==> s < stored)
    && (forall s: nat {:trigger Recorded(preimage, heads, genesisParent, size, s)} ::
          s < stored ==> Recorded(preimage, heads, genesisParent, size, s))
  }

  /**
   What the backend and the database answer while a section is processed: whether the backend
   accepts the reset and the commit, and the canonical hash of each number when it is read.
   */
  datatype View = View(reset: bool, read: nat -> Option<Hash>, commit: bool)

  /** The hash read for a number; the database keeps headers under their own numbers only. */
  function ReadHash(preimage: Hash -> Header, view: View, n: nat): (h: Option<Hash>)
    ensures h.Some? ==> h.value != NO_HASH && preimage(h.value).number == n
  {
    var h := view.read(n);
    if h.Some? && (h.value == NO_HASH || preimage(h.value).number != n) then None else h
  }

  /** The header read for a number is there, and the child of the one read before it. */
  ghost predicate LinksAt(preimage: Hash -> Header, view: View, oldHead: Hash, from: nat, n: nat) {
    var h := ReadHash(preimage, view, n);
    h.Some? && (n <= from || ReadHash(preimage, view, n - 1).Some?)
    && preimage(h.value).parent == if n <= from then oldHead else ReadHash(preimage, view, n - 1).value
  }

  /** The section can be processed: the backend goes along and the headers read form a chain. */
  ghost predicate Processable(preimage: Hash -> Header, view: View, oldHead: Hash, section: nat, size: nat) {
    && view.reset && view.commit
    && forall n: nat {:trigger LinksAt(preimage, view, oldHead, section * size, n)} ::
         section * size <= n < (section + 1) * size ==> LinksAt(preimage, view, oldHead, section * size, n)
  }

  lemma HeadsThere(preimage: Hash -> Header, heads: map<nat, Hash>, genesisParent: Hash, size: nat, stored: nat)
    requires SectionsOk(preimage, heads, genesisParent, size, stored)
    ensures forall s: nat :: s < stored ==> s in heads
  {
    forall s: nat | s < stored ensures s in heads {
      assert Recorded(preimage, heads, genesisParent, size, s);
    }
  }

  lemma SectionsSpelled(preimage: Hash -> Header, heads: map<nat, Hash>, genesisParent: Hash, size: nat, stored: nat)
    requires SectionsOk(preimage, heads, genesisParent, size, stored)
    ensures forall s: nat :: s in heads <==> s < stored
    ensures forall s: nat :: s in heads ==>
              && preimage(heads[s]).number == LastOf(s, size)
              && Back(preimage, heads[s], size) == Before(heads, genesisParent, s)
  {
    forall s: nat | s < stored
      ensures s in heads && preimage(heads[s]).number == LastOf(s, size)
      ensures Back(preimage, heads[s], size) == Before(heads, genesisParent, s)
    {
      assert Recorded(preimage, heads, genesisParent, size, s);
    }
  }

  lemma SectionsCut(preimage: Hash -> Header, heads: map<nat, Hash>, genesisParent: Hash, size: nat, stored: nat)
    requires stored > 0 && SectionsOk(preimage, heads, genesisParent, size, stored)
    ensures SectionsOk(preimage, heads - {stored - 1}, genesisParent, size, stored - 1)
  {
    var heads' := heads - {stored - 1};
    forall s: nat | s < stored - 1 ensures Recorded(preimage, heads', genesisParent, size, s) {
      assert Recorded(preimage, heads, genesisParent, size, s);
      if s > 0 { assert Recorded(preimage, heads, genesisParent, size, s - 1); }
    }
  }

  lemma SectionsGrow(preimage: Hash -> Header, heads: map<nat, Hash>, genesisParent: Hash, size: nat, stored: nat,
                     head: Hash)
    requires SectionsOk(preimage, heads, genesisParent, size, stored)
    requires head != NO_HASH && preimage(head).number == LastOf(stored, size)
    requires Back(preimage, head, size) == Before(heads, genesisParent, stored)
    ensures SectionsOk(preimage, heads[stored := head], genesisParent, size, stored + 1)
  {
    var heads' := heads[stored := head];
    forall s: nat | s < stored + 1 ensures Recorded(preimage, heads', genesisParent, size, s) {
      if s < stored { assert Recorded(preimage, heads, genesisParent, size, s); }
    }
  }

  lemma {:induction false} BackAgain(preimage: Hash -> Header, h: Hash, n: nat, m: nat)
    ensures Back(preimage, h, n + m) == Back(preimage, Back(preimage, h, n), m)
    decreases n
  {
    if n > 0 { BackAgain(preimage, preimage(h).parent, n - 1, m); }
  }

  /** The recorded heads all lie on one branch: each is a whole number of sections behind any later one. */
  lemma {:induction false} OneBranch(preimage: Hash -> Header, heads: map<nat, Hash>, genesisParent: Hash, size: nat,
                                     stored: nat, s: nat, back: nat)
    requires SectionsOk(preimage, heads, genesisParent, size, stored) && s < stored && back <= s + 1
    ensures s in heads
    ensures Back(preimage, heads[s], back * size) ==
            if back == 0 then heads[s] else Before(heads, genesisParent, s + 1 - back)
    decreases back
  {
    assert Recorded(preimage, heads, genesisParent, size, s);
    if back > 0 {
      OneBranch(preimage, heads, genesisParent, size, stored, s, back - 1);
      assert Recorded(preimage, heads, genesisParent, size, s + 1 - back);
      BackAgain(preimage, heads[s], (back - 1) * size, size);
      assert (back - 1) * size + size == back * size;
    }
  }

  function Max(a: nat, b: nat): nat {
    if a > b then a else b
  }

  /** How many sections have all their blocks at or below a head, and enough confirmations above them. */
  function Confirmed(head: nat, confirms: nat, size: nat): nat
    requires size > 0
  {
    if head < confirms then 0 else (head + 1 - confirms) / size
  }

  /** The next section after the confirmed ones, or after more of them, is not confirmed yet. */
  lemma ConfirmedBounds(head: nat, confirms: nat, size: nat, known: nat)
    requires size > 0
    ensures var s := Confirmed(head, confirms, size);
            && (s > known ==> s * size + confirms <= head + 1)
            && head + 1 < (Max(s, known) + 1) * size + confirms
  {
    var s := Confirmed(head, confirms, size);
    var more := Max(s, known) - s;
    assert (s + more + 1) * size == (s + 1) * size + more * size;
    if head < confirms {
      assert (s + 1) * size >= 1;
    } else {
      RoundDown(head + 1 - confirms, size);
    }
  }

  lemma RoundDown(n: nat, size: nat)
    requires size > 0
    ensures (n / size) * size <= n < (n / size + 1) * size
  {
  }

  class Indexer {
    const sectionSize: nat
    const confirmsReq: nat
    const genesisParent: Hash
    const preimage: Hash -> Header   // the header behind a hash

    var storedSections: nat
    var knownSections: nat
    var count: nat               // the stored count of valid sections
    var heads: map<nat, Hash>    // the stored section heads
    var signalled: bool          // the update channel holds a signal, or a timer is going to send one

    ghost predicate Valid()
      reads this
    {
      && sectionSize > 0 && count == storedSections
      && SectionsOk(preimage, heads, genesisParent, sectionSize, storedSections)
    }

    /** Starts from what an earlier indexer left in the database. */
    constructor (sectionSize: nat, confirmsReq: nat, genesisParent: Hash, preimage: Hash -> Header,
                 count: nat, heads: map<nat, Hash>)
      requires sectionSize > 0
      requires SectionsOk(preimage, heads, genesisParent, sectionSize, count)
      ensures Valid() && Awake() && this.storedSections == count && this.heads == heads
    {
      this.sectionSize, this.confirmsReq, this.genesisParent := sectionSize, confirmsReq, genesisParent;
      this.preimage := preimage;
      this.count, this.heads, this.storedSections, this.knownSections := count, heads, count, 0;
      this.signalled := false;
    }

    method SectionHead(section: nat) returns (h: Hash)
      requires Valid()
      ensures section < storedSections ==> section in heads && h == heads[section]
      ensures h != NO_HASH <==> section < storedSections
    {
      assert section < storedSections ==> Recorded(preimage, heads, genesisParent, sectionSize, section);
      h := if section in heads then heads[section] else NO_HASH;
    }

    /** Writes the number of valid sections and removes the heads of those beyond it. */
    method SetValidSections(sections: nat)
      requires sectionSize > 0
      requires SectionsOk(preimage, heads, genesisParent, sectionSize, Max(sections, storedSections))
      modifies this`storedSections, this`count, this`heads
      ensures Valid() && storedSections == sections
      ensures forall s: nat :: s < sections ==> s in heads && s in old(heads) && heads[s] == old(heads)[s]
    {
      HeadsThere(preimage, heads, genesisParent, sectionSize, Max(sections, storedSections));
      count := sections;
      while storedSections > sections
        invariant SectionsOk(preimage, heads, genesisParent, sectionSize, Max(sections, storedSections))
        invariant forall s: nat :: s < sections ==> s in heads && s in old(heads) && heads[s] == old(heads)[s]
        invariant count == sections
      {
        SectionsCut(preimage, heads, genesisParent, sectionSize, storedSections);
        storedSections := storedSections - 1;
        heads := heads - {storedSections};
      }
      storedSections := sections;
    }

    /** Unprocessed sections never go unnoticed: there is a signal for the update loop. */
    ghost predicate Awake()
      reads this
    {
      knownSections > storedSections ==> signalled
    }

    /**
     A notification.  A reorg keeps the sections whose blocks all lie at or below the fork, and
     leaves their heads alone; a new head only makes sections known that have enough confirmations.
     */
    method NewHead(head: nat, reorg: bool)
      requires Valid()
      modifies this`storedSections, this`knownSections, this`count, this`heads, this`signalled
      ensures Valid() && (old(Awake()) ==> Awake())
      ensures forall s: nat :: s < storedSections ==> s in heads && s in old(heads) && heads[s] == old(heads)[s]
      ensures reorg ==> storedSections == Min(old(storedSections), head / sectionSize)
      ensures reorg ==> knownSections == Min(old(knownSections), head / sectionSize)
      ensures !reorg ==> heads == old(heads) && storedSections == old(storedSections)
      ensures !reorg ==> knownSections == Max(old(knownSections), Confirmed(head, confirmsReq, sectionSize))
      ensures !reorg ==> knownSections == old(knownSections) ||
                         (old(knownSections) < knownSections && knownSections * sectionSize + confirmsReq <= head + 1)
      ensures !reorg ==> head + 1 < (knownSections + 1) * sectionSize + confirmsReq
    {
      HeadsThere(preimage, heads, genesisParent, sectionSize, storedSections);
      ConfirmedBounds(head, confirmsReq, sectionSize, knownSections);
      if reorg {
        var changed := head / sectionSize;
        if changed < knownSections {
          knownSections := changed;
        }
        if changed < storedSections {
          SetValidSections(changed);
        }
      } else if head >= confirmsReq {
        var sections := (head + 1 - confirmsReq) / sectionSize;
        if sections > knownSections {
          knownSections := sections;
          signalled := true;
        }
      }
    }

    /** Whatever notifications come in while the lock is free. */
    method Interfere()
      requires Valid()
      modifies this`storedSections, this`knownSections, this`count, this`heads, this`signalled
      ensures Valid() && storedSections <= old(storedSections)
      ensures forall s: nat :: s < storedSections ==> s in heads && s in old(heads) && heads[s] == old(heads)[s]
    {
      HeadsThere(preimage, heads, genesisParent, sectionSize, storedSections);
      var k: nat := *;
      while k > 0
        invariant Valid() && storedSections <= old(storedSections)
        invariant forall s: nat :: s < storedSections ==> s in heads && s in old(heads) && heads[s] == old(heads)[s]
        decreases k
      {
        var head: nat, reorg: bool := *, *;
        NewHead(head, reorg);
        k := k - 1;
      }
    }

    /**
     Hands the headers of a section to the backend, checking that each is the child of the one
     before; the chain and the recorded sections may change at any time meanwhile.
     */
    method ProcessSection(section: nat, oldHead: Hash, view: View) returns (newHead: Option<Hash>)
      requires Valid()
      modifies this`storedSections, this`knownSections, this`count, this`heads, this`signalled
      ensures Valid() && storedSections <= old(storedSections)
      ensures forall s: nat :: s < storedSections ==> s in heads && s in old(heads) && heads[s] == old(heads)[s]
      ensures newHead.Some? <==> Processable(preimage, view, oldHead, section, sectionSize)
      ensures newHead.Some? ==>
                && newHead == ReadHash(preimage, view, LastOf(section, sectionSize))
                && newHead.value != NO_HASH && preimage(newHead.value).number == LastOf(section, sectionSize)
                && Back(preimage, newHead.value, sectionSize) == oldHead
      ensures !view.reset ==> storedSections == 0
    {
      HeadsThere(preimage, heads, genesisParent, sectionSize, storedSections);
      Interfere();
      if !view.reset {
        SetValidSections(0);
        return None;
      }
      var from, end := section * sectionSize, (section + 1) * sectionSize;
      var lastHead, number := oldHead, from;
      while number < end
        invariant from <= number <= end
        invariant Valid() && storedSections <= old(storedSections)
        invariant forall s: nat :: s < storedSections ==> s in heads && s in old(heads) && heads[s] == old(heads)[s]
        invariant Back(preimage, lastHead, number - from) == oldHead
        invariant if number == from then lastHead == oldHead
                  else ReadHash(preimage, view, number - 1) == Some(lastHead)
        invariant forall n: nat {:trigger LinksAt(preimage, view, oldHead, from, n)} ::
                    from <= n < number ==> LinksAt(preimage, view, oldHead, from, n)
      {
        Interfere();
        var hash := ReadHash(preimage, view, number);
        if hash == None || preimage(hash.value).parent != lastHead {
          assert !LinksAt(preimage, view, oldHead, from, number);
          return None;
        }
        assert LinksAt(preimage, view, oldHead, from, number);
        lastHead := hash.value;
        number := number + 1;
      }
      newHead := if view.commit then Some(lastHead) else None;
    }

    /**
     One round of the update loop.  A section is recorded exactly if it was processed and every
     section before it is still there when the lock is taken again; what was recorded before and has
     not been cut off stays, and no section that is known but not stored is left without a signal.
     */
    method Update(view: View) returns (recorded: bool, processed: bool, ghost left: nat)
      requires Valid() && signalled
      modifies this`storedSections, this`knownSections, this`count, this`heads, this`signalled
      ensures Valid() && Awake()
      ensures processed <==>
                && old(knownSections) > old(storedSections)
                && Processable(preimage, view, Before(old(heads), genesisParent, old(storedSections)),
                               old(storedSections), sectionSize)
      ensures left <= old(storedSections) && (recorded <==> processed && left == old(storedSections))
      ensures storedSections == if recorded then left + 1 else left
      ensures !recorded && old(knownSections) > old(storedSections) ==> knownSections == storedSections
      ensures forall s: nat :: s < storedSections && s < old(storedSections) ==>
                s in heads && s in old(heads) && heads[s] == old(heads)[s]
    {
      HeadsThere(preimage, heads, genesisParent, sectionSize, storedSections);
      signalled, recorded, processed := false, false, false;
      left := storedSections;
      if knownSections > storedSections {
        var section, oldHead := storedSections, genesisParent;
        if section > 0 {
          oldHead := SectionHead(section - 1);
        }
        var newHead := ProcessSection(section, oldHead, view);
        Interfere();
        processed := newHead.Some?;
        left := storedSections;
        var prevHead := genesisParent;
        if section > 0 {
          prevHead := SectionHead(section - 1);
        }
        if newHead.Some? && oldHead == prevHead {
          assert storedSections == section;
          SectionsGrow(preimage, heads, genesisParent, sectionSize, section, newHead.value);
          heads := heads[section := newHead.value];
          SetValidSections(section + 1);
          recorded := true;
        } else {
          knownSections := storedSections;
        }
      }
      if knownSections > storedSections {
        signalled := true;
      }
    }

    /** Any run of notifications and, whenever there is a signal for one, update rounds. */
    method Run(steps: nat, views: nat -> View)
      requires Valid() && Awake()
      modifies this`storedSections, this`knownSections, this`count, this`heads, this`signalled
      ensures Valid() && Awake()
      ensures forall s: nat :: s in heads <==> s < storedSections
      ensures forall s: nat :: s in heads ==>
                && preimage(heads[s]).number == LastOf(s, sectionSize)
                && Back(preimage, heads[s], sectionSize) == Before(heads, genesisParent, s)
    {
      for i := 0 to steps
        invariant Valid() && Awake()
      {
        var update: bool := *;
        if update {
          if signalled {
            var _, _, _ := Update(views(i));
          }
        } else {
          var head: nat, reorg: bool := *, *;
          NewHead(head, reorg);
        }
      }
      SectionsSpelled(preimage, heads, genesisParent, sectionSize, storedSections);
    }
  }
}
