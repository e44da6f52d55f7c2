/**
  How the copy-on-write machine and the eager one are related, and the steps that are plain
  loads and stores.
*/
module CowRel {
  import opened Mmu
  import opened Cow

  // ----- the relation between the two machines

  /** The child's side of a page between duppage's two map calls. */
  ghost predicate Pending(s: State, k: Key) {
    exists e :: PendingBy(s, k, e)
  }

  predicate PendingBy(s: State, k: Key, e: nat) {
    DupOf(s, e).Mapped? && DupOf(s, e).child == k.env && DupOf(s, e).vpn == k.vpn
  }

  ghost predicate SameViews(s: State, a: Eager) {
    forall k :: k in a.view <==> k in s.pt && k.vpn != UCOW_VPN && !Pending(s, k)
  }

  ghost predicate SameContents(s: State, a: Eager) {
    forall k :: k in a.view && k in s.pt ==>
      a.view[k] < a.next && PageOf(s, s.pt[k].page) == Region(a, a.view[k])
  }

  /** Pages of different regions share memory only while neither can be written. */
  ghost predicate Apart(s: State, a: Eager) {
    forall k, l :: k in a.view && l in a.view && k in s.pt && l in s.pt && a.view[k] != a.view[l] ==>
      s.pt[k].page == s.pt[l].page ==> !Writable(s.pt[k].flags)
  }

  /** Pages of one region are one library page. */
  ghost predicate Together(s: State, a: Eager) {
    forall k, l :: k in a.view && l in a.view && k in s.pt && l in s.pt && k != l && a.view[k] == a.view[l]
      ==> s.pt[k].page == s.pt[l].page && IsLibrary(s.pt[k].flags)
  }

  ghost predicate FlagsOk(s: State) {
    forall k :: k in s.pt && IsCow(s.pt[k].flags) ==> !Writable(s.pt[k].flags) && !IsLibrary(s.pt[k].flags)
  }

  ghost predicate DupOk(s: State, a: Eager, e: nat) {
    var d := DupOf(s, e);
    !d.NoDup? ==>
      && e in s.running && d.child in s.live && d.child !in s.running
      && d.child in s.parent && s.parent[d.child] == e && d.vpn != UCOW_VPN
      && Key(e, d.vpn) in a.view && Key(e, d.vpn) in s.pt && s.pt[Key(e, d.vpn)].flags == d.perm
      && (d.Read? ==> Key(d.child, d.vpn) !in s.pt)
      && (d.Mapped? ==>
            var k := Key(d.child, d.vpn);
            && Writable(d.perm) && !IsLibrary(d.perm)
            && k in s.pt && s.pt[k].page == s.pt[Key(e, d.vpn)].page && !Writable(s.pt[k].flags) && IsCow(s.pt[k].flags))
  }

  ghost predicate OnlyUsers(s: State, p: nat, k: Key, l: Key) {
    forall m :: m in s.pt && s.pt[m].page == p ==> m == k || m == l
  }

  ghost predicate HandlerOk(s: State, a: Eager, e: nat) {
    var u := Key(e, UCOW_VPN);
    match HandlerOf(s, e)
    case Idle => u !in s.pt
    case Alloc(vpn) =>
      && e in s.running && !InDup(s, Key(e, vpn)) && u !in s.pt
      && Key(e, vpn) in a.view && Key(e, vpn) in s.pt && IsCow(s.pt[Key(e, vpn)].flags)
    case Copy(vpn, done) =>
      var k := Key(e, vpn);
      && e in s.running && !InDup(s, k)
      && k in a.view && k in s.pt && IsCow(s.pt[k].flags)
      && u in s.pt && OnlyUsers(s, s.pt[u].page, u, u) && !IsCow(s.pt[u].flags)
      && done <= BY2PG && PageOf(s, s.pt[u].page)[..done] == PageOf(s, s.pt[k].page)[..done]
    case Unmap(vpn) =>
      var k := Key(e, vpn);
      && e in s.running && !InDup(s, k)
      && k in a.view && k in s.pt && Writable(s.pt[k].flags)
      && u in s.pt && s.pt[u].page == s.pt[k].page && OnlyUsers(s, s.pt[u].page, u, k) && !IsCow(s.pt[u].flags)
  }

  ghost predicate LiveOk(s: State) {
    && s.running <= s.live
    && (forall k :: k in s.pt ==> k.env in s.live)
  }

  ghost predicate Views(s: State, a: Eager) {
    SameViews(s, a) && SameContents(s, a) && Apart(s, a) && Together(s, a) && FlagsOk(s) && LiveOk(s)
  }

  ghost predicate Rel(s: State, a: Eager) {
    && Views(s, a)
    && (forall e {:trigger DupOf(s, e)} :: DupOk(s, a, e))
    && (forall e {:trigger HandlerOf(s, e)} :: HandlerOk(s, a, e))
  }

  /**
    The steps for which the claim is made: the parent does not fault on the very page whose
    permission duppage has read and not yet used.
  */
  ghost predicate Allowed(s: State, ev: Event) {
    && Enabled(s, ev)
    && (ev.Store? && !Writable(s.pt[ev.key].flags) ==> !InDup(s, ev.key))
  }

  // ----- flags

  lemma FlagFacts(perm: Flags)
    ensures Writable(perm | PTE_V) == Writable(perm) && IsCow(perm | PTE_V) == IsCow(perm)
    ensures IsLibrary(perm | PTE_V) == IsLibrary(perm)
    ensures Writable(CowPerm(perm)) && !IsCow(CowPerm(perm)) && !IsLibrary(CowPerm(perm))
    ensures !Writable(perm) || IsLibrary(perm) ==> DupPerm(perm) == perm
    ensures Writable(perm) && !IsLibrary(perm) ==>
      !Writable(DupPerm(perm)) && IsCow(DupPerm(perm)) && !IsLibrary(DupPerm(perm))
    ensures Writable(PTE_D | PTE_V) && !IsCow(PTE_D | PTE_V) && !IsLibrary(PTE_D | PTE_V)
  {
  }

  /** A running environment's page is not pending: its owner has not started yet. */
  lemma NotPending(s: State, a: Eager, k: Key)
    requires Rel(s, a)
    ensures Pending(s, k) ==> k.env !in s.running
  {
    if Pending(s, k) {
      var e :| PendingBy(s, k, e);
      assert DupOk(s, a, e);
    }
  }

  /** Every load returns what the eager machine holds. */
  lemma LoadSame(s: State, a: Eager, k: Key, off: nat)
    requires Rel(s, a) && Enabled(s, Load(k, off))
    ensures k in a.view && PageOf(s, s.pt[k].page)[off] == Region(a, a.view[k])[off]
  {
    NotPending(s, a, k);
  }

  lemma SamePending(s: State, t: State)
    requires t.dup == s.dup
    ensures forall k :: Pending(t, k) == Pending(s, k)
  {
    forall k ensures Pending(t, k) == Pending(s, k) {
      if Pending(s, k) {
        var e :| PendingBy(s, k, e);
        assert PendingBy(t, k, e);
      }
      if Pending(t, k) {
        var e :| PendingBy(t, k, e);
        assert PendingBy(s, k, e);
      }
    }
  }

  // ----- stores

  ghost predicate StoreCase(s: State, a: Eager, k: Key, off: nat) {
    Rel(s, a) && Ready(s, k) && k in s.pt && off < BY2PG && Writable(s.pt[k].flags)
  }

  lemma StoreViews(s: State, a: Eager, k: Key, off: nat, b: Byte)
    requires StoreCase(s, a, k, off)
    ensures var t, c := StoreByte(s, s.pt[k].page, off, b), Do(a, Put(k, off, b));
            Views(t, c)
  {
    var t, c := StoreByte(s, s.pt[k].page, off, b), Do(a, Put(k, off, b));
    SamePending(s, t);
    NotPending(s, a, k);
    forall l | l in c.view && l in t.pt ensures PageOf(t, t.pt[l].page) == Region(c, c.view[l]) {
    }
  }

  lemma StoreHandlers(s: State, a: Eager, k: Key, off: nat, b: Byte, e: nat)
    requires StoreCase(s, a, k, off)
    ensures var t, c := StoreByte(s, s.pt[k].page, off, b), Do(a, Put(k, off, b)); DupOk(t, c, e) && HandlerOk(t, c, e)
  {
    var t, c := StoreByte(s, s.pt[k].page, off, b), Do(a, Put(k, off, b));
    assert DupOk(s, a, e) && HandlerOk(s, a, e);
    hide Rel;
    if HandlerOf(s, e).Copy? {
      assert s.pt[Key(e, UCOW_VPN)].page != s.pt[k].page;
      assert PageOf(t, t.pt[Key(e, UCOW_VPN)].page) == PageOf(s, s.pt[Key(e, UCOW_VPN)].page);
    }
  }

  lemma StoreSim(s: State, a: Eager, k: Key, off: nat, b: Byte)
    requires StoreCase(s, a, k, off)
    ensures Rel(StoreByte(s, s.pt[k].page, off, b), Do(a, Put(k, off, b)))
  {
    StoreViews(s, a, k, off, b);
    forall e ensures DupOk(StoreByte(s, s.pt[k].page, off, b), Do(a, Put(k, off, b)), e) {
      StoreHandlers(s, a, k, off, b, e);
    }
    forall e ensures HandlerOk(StoreByte(s, s.pt[k].page, off, b), Do(a, Put(k, off, b)), e) {
      StoreHandlers(s, a, k, off, b, e);
    }
  }

  // ----- frames

  /** A step that leaves environment e's pages, and the memory and users of UCOW, alone. */
  ghost predicate Untouched(s: State, t: State, a: Eager, c: Eager, e: nat) {
    var u := Key(e, UCOW_VPN);
    && HandlerOf(t, e) == HandlerOf(s, e) && DupOf(t, e) == DupOf(s, e) && (e in s.running ==> e in t.running)
    && (forall l: Key :: l.env == e ==>
          && (l in t.pt <==> l in s.pt)
          && (l in s.pt ==> t.pt[l] == s.pt[l] && PageOf(t, s.pt[l].page) == PageOf(s, s.pt[l].page))
          && (l in a.view ==> l in c.view))
    && (u in s.pt ==> forall m :: m in t.pt && t.pt[m].page == s.pt[u].page ==> m in s.pt && s.pt[m].page == s.pt[u].page)
  }

  lemma HandlerFrame(s: State, t: State, a: Eager, c: Eager, e: nat)
    requires HandlerOk(s, a, e) && Untouched(s, t, a, c, e)
    ensures HandlerOk(t, c, e)
  {
    hide Writable, IsCow, IsLibrary, PageOf, HandlerOf, DupOf;
  }
}
