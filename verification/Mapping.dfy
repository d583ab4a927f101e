/** The page cache: mm/mapping.c.

    Any number of threads find, load, change, write back and discard cached pages at the same time. Each stretch under
    the cache's mutex is one step, and the backend's reads and writes happen between such steps while the page's own
    mutex is held. A token stands for one reference that some thread has to a page, together with how far the thread
    has got.
 */
module Mapping {
  import opened Errno

  const MAX: nat := 256

  type Id = nat
  type Tid = nat
  type Host = nat
  type Data = int

  datatype Key = Key(host: Host, index: nat)

  datatype Flag = Clean | Dirty | Writeback

  /** `loaded` says that the backend's read succeeded, `lock` which token holds the page's mutex, and `purged` that the
      page was discarded by mapping_purge. */
  datatype Page = Page(key: Key, data: Data, refs: int, hashed: bool, flag: Flag, loaded: bool, error: Option<Error>,
                       lock: Option<Tid>, purged: bool)

  /** Loading: waits for the backend's read. Ready: found the page in the cache and has yet to look at its error. Has: a
      plain reference. Locked: has the page's mutex, and perhaps changed the contents. Writing: waits for the backend's
      write. Pinned: about to discard the page. Gone: about to drop the reference. */
  datatype Phase = Loading | Ready | Has | Locked(touched: bool) | Writing | Pinned | Gone

  datatype Token = Token(page: Id, phase: Phase)

  /** `lost` are the keys whose last write to the backend failed; `owed` counts the holds on a host that are still to be
      given back by threads that have finished with a page. */
  datatype State = State(pages: map<Id, Page>, toks: map<Tid, Token>, dirty: seq<Id>, lru: seq<Id>, nr: int,
                         disk: Key -> Data, lost: set<Key>, errors: map<Host, Error>, holds: Host -> int,
                         owed: Host -> int)

  // ---------------------------------------------------------------------------------------------------------------
  // Lists
  // ---------------------------------------------------------------------------------------------------------------

  function Without(xs: seq<Id>, p: Id): seq<Id> {
    if xs == [] then [] else if xs[0] == p then Without(xs[1..], p) else [xs[0]] + Without(xs[1..], p)
  }

  ghost predicate Distinct(xs: seq<Id>) {
    forall i: nat, j: nat :: i < j < |xs| ==> xs[i] != xs[j]
  }

  lemma {:induction false} WithoutFacts(xs: seq<Id>, p: Id)
    ensures p !in Without(xs, p)
    ensures forall q: Id :: q != p ==> (q in Without(xs, p) <==> q in xs)
    ensures Distinct(xs) ==> Distinct(Without(xs, p))
  {
    if xs != [] {
      WithoutFacts(xs[1..], p);
      var rest := Without(xs[1..], p);
      assert xs == [xs[0]] + xs[1..];
      if Distinct(xs) {
        assert forall i: nat :: i < |xs[1..]| ==> xs[1..][i] == xs[i + 1];
        assert Distinct(xs[1..]) && xs[0] !in xs[1..];
        if xs[0] != p {
          DistinctCons(xs[0], rest);
        }
      }
    }
  }

  lemma DistinctCons(p: Id, xs: seq<Id>)
    requires Distinct(xs) && p !in xs
    ensures Distinct([p] + xs) && Distinct(xs + [p])
  {
  }

  /** mapping_link: puts a page on the list it belongs to. */
  function Link(s: State, p: Id): State
    requires p in s.pages
  {
    var pg, d, l := s.pages[p], Without(s.dirty, p), Without(s.lru, p);
    s.(dirty := if pg.hashed && pg.flag != Clean then d + [p] else d,
       lru := if pg.hashed && pg.flag == Clean && pg.refs == 1 then l + [p] else l)
  }

  ghost predicate ListsOk(s: State) {
    && Distinct(s.dirty) && Distinct(s.lru)
    && (forall p: Id :: p in s.dirty ==> p in s.pages) && (forall p: Id :: p in s.lru ==> p in s.pages)
  }

  /** Membership of all pages but p is as before. */
  ghost predicate ListsSame(s: State, r: State, p: Id) {
    forall q: Id :: q != p ==> (q in r.dirty <==> q in s.dirty) && (q in r.lru <==> q in s.lru)
  }

  lemma LinkFacts(s: State, p: Id)
    requires p in s.pages && ListsOk(s)
    ensures ListsOk(Link(s, p)) && ListsSame(s, Link(s, p), p)
    ensures p in Link(s, p).dirty <==> s.pages[p].hashed && s.pages[p].flag != Clean
    ensures p in Link(s, p).lru <==> s.pages[p].hashed && s.pages[p].flag == Clean && s.pages[p].refs == 1
  {
    WithoutFacts(s.dirty, p);
    WithoutFacts(s.lru, p);
    DistinctCons(p, Without(s.dirty, p));
    DistinctCons(p, Without(s.lru, p));
  }

  // ---------------------------------------------------------------------------------------------------------------
  // Invariant
  // ---------------------------------------------------------------------------------------------------------------

  /** The tokens that refer to p. */
  ghost function On(s: State, p: Id): map<Tid, Phase> {
    map t | t in s.toks && s.toks[t].page == p :: s.toks[t].phase
  }

  predicate Locks(ph: Phase) {
    ph.Loading? || ph.Locked? || ph.Writing?
  }

  ghost predicate TokenOk(pg: Page, t: Tid, ph: Phase) {
    && (Locks(ph) ==> pg.lock == Some(t))
    && match ph
       case Loading => pg.hashed && !pg.loaded && pg.flag == Clean
       case Has => pg.loaded
       case Locked(touched) => pg.loaded && pg.flag != Writeback && (touched ==> pg.hashed)
       case Writing => pg.flag == Writeback
       case _ => true
  }

  function Bit(b: bool): int {
    if b then 1 else 0
  }

  /** The token that has the page's mutex is in this phase. */
  ghost predicate LockedAs(pg: Page, ts: map<Tid, Phase>, ph: Phase) {
    pg.lock.Some? && pg.lock.value in ts && ts[pg.lock.value] == ph
  }

  /** What holds of a page, given its tokens, the lists it is on and what the backend holds for its key. */
  ghost predicate PageOk(pg: Page, ts: map<Tid, Phase>, inDirty: bool, inLru: bool, onDisk: Data, lost: bool) {
    && pg.refs == |ts| + Bit(pg.hashed) + Bit(pg.flag == Writeback) && pg.refs > 0
    && (inDirty <==> pg.flag != Clean)
    && (pg.flag != Clean ==> pg.hashed && pg.loaded)
    && (pg.hashed ==> pg.error.None? && !pg.purged) && (pg.loaded && !pg.hashed ==> pg.purged)
    && (inLru ==> pg.hashed && pg.flag == Clean && forall t: Tid :: t in ts ==> ts[t] == Pinned)
    && (pg.hashed && pg.flag == Clean && |ts| == 0 ==> inLru)
    && (pg.lock.Some? ==> pg.lock.value in ts && Locks(ts[pg.lock.value]))
    && (forall t: Tid :: t in ts ==> TokenOk(pg, t, ts[t]))
    && (!pg.loaded && pg.error.None? ==> LockedAs(pg, ts, Loading))
    && (pg.flag == Writeback ==> LockedAs(pg, ts, Writing))
    && (pg.hashed && pg.loaded && pg.flag == Clean && !lost && !LockedAs(pg, ts, Locked(true)) ==> pg.data == onDisk)
  }

  ghost predicate Ok(s: State, p: Id)
    requires p in s.pages
  {
    PageOk(s.pages[p], On(s, p), p in s.dirty, p in s.lru, s.disk(s.pages[p].key), s.pages[p].key in s.lost)
  }

  ghost predicate PagesOk(s: State) {
    forall p: Id :: p in s.pages ==> Ok(s, p)
  }

  ghost predicate TokensOk(s: State) {
    forall t: Tid :: t in s.toks ==> s.toks[t].page in s.pages
  }

  ghost predicate Findable(s: State, p: Id) {
    p in s.pages && s.pages[p].hashed
  }

  /** At most one page per key can be found. */
  ghost predicate UniqueOk(s: State) {
    forall p: Id, q: Id :: Findable(s, p) && Findable(s, q) && s.pages[p].key == s.pages[q].key ==> p == q
  }

  ghost function Hashed(s: State): set<Id> {
    set p | p in s.pages && s.pages[p].hashed
  }

  ghost predicate CountOk(s: State) {
    s.nr == |Hashed(s)| <= MAX
  }

  /** The pages of a host that have not reached the backend. */
  ghost function Unclean(s: State, m: Host): set<Id> {
    set p | p in s.pages && s.pages[p].key.host == m && s.pages[p].flag != Clean
  }

  ghost predicate HoldsOk(s: State) {
    forall m: Host :: s.holds(m) == |Unclean(s, m)| + s.owed(m) && s.owed(m) >= 0
  }

  ghost predicate LostOk(s: State) {
    forall k: Key :: k in s.lost ==> k.host in s.errors
  }

  ghost predicate Inv(s: State) {
    PagesOk(s) && TokensOk(s) && ListsOk(s) && UniqueOk(s) && CountOk(s) && HoldsOk(s) && LostOk(s)
  }

  // ---------------------------------------------------------------------------------------------------------------
  // Changing one page
  // ---------------------------------------------------------------------------------------------------------------

  lemma OnSet(s: State, r: State, t: Tid, p: Id, ph: Phase, q: Id)
    requires t in s.toks ==> s.toks[t].page == p
    requires r.toks == s.toks[t := Token(p, ph)]
    ensures On(r, p) == On(s, p)[t := ph] && (q != p ==> On(r, q) == On(s, q))
  {
  }

  lemma OnDrop(s: State, r: State, t: Tid, p: Id, q: Id)
    requires t in s.toks && s.toks[t].page == p && r.toks == s.toks - {t}
    ensures On(r, p) == On(s, p) - {t} && (q != p ==> On(r, q) == On(s, q))
    ensures |On(r, p)| == |On(s, p)| - 1
  {
    var a, b := On(s, p), On(r, p);
    assert b == a - {t} && t in a;
    OneFewer(a, t);
  }

  lemma OneFewer(a: map<Tid, Phase>, t: Tid)
    requires t in a
    ensures |a - {t}| == |a| - 1
  {
    assert (a - {t}).Keys == a.Keys - {t};
  }

  /** r differs from s in page p, which is now pg, and in the token t, which refers to p. */
  ghost predicate Edited(s: State, r: State, p: Id, pg: Page, t: Tid, ph: Option<Phase>) {
    && p in s.pages && r.pages == s.pages[p := pg] && pg.key == s.pages[p].key && (pg.hashed ==> s.pages[p].hashed)
    && (t in s.toks ==> s.toks[t].page == p)
    && match ph
       case Some(x) => r.toks == s.toks[t := Token(p, x)]
       case None => t in s.toks && r.toks == s.toks - {t}
  }

  /** What a change of one page does to the counters. */
  ghost predicate Counted(s: State, r: State, p: Id, pg: Page)
    requires p in s.pages
  {
    && r.nr == s.nr + Bit(pg.hashed) - Bit(s.pages[p].hashed)
    && forall m: Host ::
         && r.owed(m) >= 0
         && r.holds(m) - r.owed(m) == s.holds(m) - s.owed(m)
              + (if m == pg.key.host then Bit(pg.flag != Clean) - Bit(s.pages[p].flag != Clean) else 0)
  }

  /** The backend changed at most for the key of page p. */
  ghost predicate DiskSame(s: State, r: State, k: Key) {
    && (forall x: Key :: x != k ==> r.disk(x) == s.disk(x) && (x in s.lost ==> x in r.lost))
    && (forall x: Key :: x in r.lost ==> x in s.lost || x == k)
    && (forall m: Host :: m in s.errors ==> m in r.errors)
    && (k in r.lost ==> k.host in r.errors)
  }

  /** A page whose hash entry is gone does not depend on the backend. */
  lemma OkElsewhere(s: State, r: State, p: Id, q: Id)
    requires p in s.pages && s.pages[p].hashed && q in s.pages && q != p && q in r.pages && r.pages[q] == s.pages[q]
    requires UniqueOk(s) && Ok(s, q) && On(r, q) == On(s, q) && ListsSame(s, r, p) && DiskSame(s, r, s.pages[p].key)
    ensures Ok(r, q)
  {
    assert Findable(s, p) && (s.pages[q].hashed ==> Findable(s, q));
  }

  lemma OkBeside(s: State, r: State, p: Id, q: Id)
    requires q in s.pages && q != p && q in r.pages && r.pages[q] == s.pages[q]
    requires Ok(s, q) && On(r, q) == On(s, q) && ListsSame(s, r, p) && r.disk == s.disk && s.lost <= r.lost
    ensures Ok(r, q)
  {
  }

  lemma HashedEdit(s: State, r: State, p: Id, pg: Page)
    requires p in s.pages && r.pages == s.pages[p := pg] && (pg.hashed ==> s.pages[p].hashed)
    ensures |Hashed(r)| == |Hashed(s)| + Bit(pg.hashed) - Bit(s.pages[p].hashed)
  {
    if pg.hashed == s.pages[p].hashed {
      assert Hashed(r) == Hashed(s);
    } else {
      assert Hashed(r) == Hashed(s) - {p};
    }
  }

  lemma UncleanEdit(s: State, r: State, p: Id, pg: Page, m: Host)
    requires p in s.pages && r.pages == s.pages[p := pg] && pg.key == s.pages[p].key
    ensures |Unclean(r, m)| == |Unclean(s, m)| +
              (if m == pg.key.host then Bit(pg.flag != Clean) - Bit(s.pages[p].flag != Clean) else 0)
  {
    hide Unclean;
    var mine := m == pg.key.host;
    UncleanAt(s, r, p, pg, m);
    if mine && pg.flag != Clean && s.pages[p].flag == Clean {
      assert Unclean(r, m) == Unclean(s, m) + {p};
    } else if mine && pg.flag == Clean && s.pages[p].flag != Clean {
      assert Unclean(r, m) == Unclean(s, m) - {p};
    } else {
      assert Unclean(r, m) == Unclean(s, m);
    }
  }

  lemma UncleanAt(s: State, r: State, p: Id, pg: Page, m: Host)
    requires p in s.pages && r.pages == s.pages[p := pg] && pg.key == s.pages[p].key
    ensures forall q: Id :: q != p ==> (q in Unclean(r, m) <==> q in Unclean(s, m))
    ensures p in Unclean(r, m) <==> pg.key.host == m && pg.flag != Clean
    ensures p in Unclean(s, m) <==> pg.key.host == m && s.pages[p].flag != Clean
  {
  }

  /** A step that changes one page keeps the invariant if the page itself is in order afterwards. */
  lemma EditKeeps(s: State, r: State, p: Id, pg: Page, t: Tid, ph: Option<Phase>)
    requires Inv(s) && Edited(s, r, p, pg, t, ph) && Counted(s, r, p, pg) && ListsOk(r) && ListsSame(s, r, p)
    requires (r.disk == s.disk && s.lost == r.lost && s.errors == r.errors)
             || (s.pages[p].hashed && DiskSame(s, r, s.pages[p].key))
    requires Ok(r, p)
    ensures Inv(r)
  {
    hide PagesOk, Ok, ListsOk, ListsSame, Hashed, Unclean;
    EditPages(s, r, p, pg, t, ph);
    HashedEdit(s, r, p, pg);
    EditHolds(s, r, p, pg);
    EditUnique(s, r, p, pg);
  }

  /** The same, for a step that gives the token t the phase ph. */
  lemma SetKeeps(s: State, r: State, p: Id, pg: Page, t: Tid, ph: Phase)
    requires Inv(s) && Edited(s, r, p, pg, t, Some(ph)) && Counted(s, r, p, pg) && ListsOk(r) && ListsSame(s, r, p)
    requires (r.disk == s.disk && s.lost == r.lost && s.errors == r.errors)
             || (s.pages[p].hashed && DiskSame(s, r, s.pages[p].key))
    requires PageOk(pg, On(s, p)[t := ph], p in r.dirty, p in r.lru, r.disk(pg.key), pg.key in r.lost)
    ensures Inv(r)
  {
    hide Inv, PageOk, Counted, ListsOk, ListsSame, DiskSame, On;
    OnSet(s, r, t, p, ph, p);
    EditKeeps(s, r, p, pg, t, Some(ph));
  }

  /** The same, for a step that drops the token t. */
  lemma DropKeeps(s: State, r: State, p: Id, pg: Page, t: Tid)
    requires Inv(s) && Edited(s, r, p, pg, t, None) && Counted(s, r, p, pg) && ListsOk(r) && ListsSame(s, r, p)
    requires r.disk == s.disk && s.lost == r.lost && s.errors == r.errors
    requires PageOk(pg, On(s, p) - {t}, p in r.dirty, p in r.lru, r.disk(pg.key), pg.key in r.lost)
    ensures Inv(r)
  {
    hide Inv, PageOk, Counted, ListsOk, ListsSame, On;
    OnDrop(s, r, t, p, p);
    EditKeeps(s, r, p, pg, t, None);
  }

  /** A step that frees a page that nobody refers to. */
  lemma RemoveKeeps(s: State, r: State, p: Id)
    requires Inv(s) && p in s.pages && s.pages[p].flag == Clean && r.pages == s.pages - {p}
    requires (forall q: Id :: q != p ==> On(r, q) == On(s, q)) && (forall t: Tid :: t in r.toks ==> r.toks[t].page != p)
    requires (forall t: Tid :: t in r.toks ==> t in s.toks && r.toks[t] == s.toks[t])
    requires ListsOk(r) && ListsSame(s, r, p) && r.nr == s.nr - Bit(s.pages[p].hashed)
    requires r.disk == s.disk && r.lost == s.lost && r.errors == s.errors && r.holds == s.holds && r.owed == s.owed
    ensures Inv(r)
  {
    hide ListsOk, ListsSame, PagesOk, On, Hashed, Unclean;
    RemovePages(s, r, p);
    RemoveHashed(s, r, p);
    RemoveUnique(s, r, p);
    RemoveUnclean(s, r, p);
  }

  lemma RemovePages(s: State, r: State, p: Id)
    requires PagesOk(s) && p in s.pages && r.pages == s.pages - {p} && ListsSame(s, r, p)
    requires (forall q: Id :: q != p ==> On(r, q) == On(s, q)) && r.disk == s.disk && r.lost == s.lost
    ensures PagesOk(r)
  {
    hide On, ListsSame, Ok;
    forall q: Id | q in r.pages
      ensures Ok(r, q)
    {
      OkBeside(s, r, p, q);
    }
  }

  lemma RemoveHashed(s: State, r: State, p: Id)
    requires p in s.pages && r.pages == s.pages - {p}
    ensures |Hashed(r)| == |Hashed(s)| - Bit(s.pages[p].hashed)
  {
    assert Hashed(r) == Hashed(s) - {p};
  }

  lemma RemoveUnique(s: State, r: State, p: Id)
    requires UniqueOk(s) && r.pages == s.pages - {p}
    ensures UniqueOk(r)
  {
    forall x: Id, y: Id | Findable(r, x) && Findable(r, y) && r.pages[x].key == r.pages[y].key
      ensures x == y
    {
      assert Findable(s, x) && Findable(s, y);
    }
  }

  lemma RemoveUnclean(s: State, r: State, p: Id)
    requires p in s.pages && s.pages[p].flag == Clean && r.pages == s.pages - {p}
    ensures forall m: Host :: Unclean(r, m) == Unclean(s, m)
  {
  }

  lemma EditHolds(s: State, r: State, p: Id, pg: Page)
    requires p in s.pages && r.pages == s.pages[p := pg] && pg.key == s.pages[p].key
    requires HoldsOk(s) && Counted(s, r, p, pg)
    ensures HoldsOk(r)
  {
    hide Unclean;
    forall m: Host
      ensures r.holds(m) == |Unclean(r, m)| + r.owed(m) && r.owed(m) >= 0
    {
      UncleanEdit(s, r, p, pg, m);
    }
  }

  lemma EditUnique(s: State, r: State, p: Id, pg: Page)
    requires p in s.pages && r.pages == s.pages[p := pg] && pg.key == s.pages[p].key
    requires (pg.hashed ==> s.pages[p].hashed) && UniqueOk(s)
    ensures UniqueOk(r)
  {
    forall x: Id, y: Id | Findable(r, x) && Findable(r, y) && r.pages[x].key == r.pages[y].key
      ensures x == y
    {
      assert Findable(s, x) && Findable(s, y);
    }
  }

  lemma EditPages(s: State, r: State, p: Id, pg: Page, t: Tid, ph: Option<Phase>)
    requires PagesOk(s) && UniqueOk(s) && Edited(s, r, p, pg, t, ph) && ListsSame(s, r, p)
    requires (r.disk == s.disk && s.lost == r.lost) || (s.pages[p].hashed && DiskSame(s, r, s.pages[p].key))
    requires Ok(r, p)
    ensures PagesOk(r)
  {
    hide Ok, ListsSame, DiskSame, On, UniqueOk;
    forall q: Id | q in r.pages && q != p
      ensures Ok(r, q)
    {
      if ph.Some? {
        OnSet(s, r, t, p, ph.value, q);
      } else {
        OnDrop(s, r, t, p, q);
      }
      if r.disk == s.disk && s.lost == r.lost {
        OkBeside(s, r, p, q);
      } else {
        OkElsewhere(s, r, p, q);
      }
    }
  }

  // ---------------------------------------------------------------------------------------------------------------
  // Steps
  // ---------------------------------------------------------------------------------------------------------------

  /** Hit: mapping_get finds the page. New: it does not, makes room and enters a new page. Loaded and Failed: the
      backend's read ends. Check: a thread that found the page looks at its error. Lock, Write, Mark and Unlock: the
      user takes the page's mutex, changes the contents, calls mapping_dirty and drops the mutex. Put: mapping_put.
      Begin and End: the two halves of mapping_writeback; `bad` is what a failed write leaves at the backend. Release:
      a hold on the host is given back. Pin and Cut: the two halves of a round of mapping_purge. Pick: mapping_collect
      takes one page. */
  datatype Event =
    | Hit(t: Tid, p: Id) | New(t: Tid, key: Key, p: Id) | Loaded(t: Tid) | Failed(t: Tid, error: Error) | Check(t: Tid)
    | Lock(t: Tid) | Write(t: Tid, d: Data) | Mark(t: Tid) | Unlock(t: Tid) | Put(t: Tid)
    | Begin(t: Tid) | End(t: Tid, err: Option<Error>, bad: Data) | Release(m: Host)
    | Pin(t: Tid, p: Id) | Cut(t: Tid) | Pick(t: Tid, p: Id)

  function Store(f: Key -> Data, k: Key, d: Data): Key -> Data {
    (x: Key) => if x == k then d else f(x)
  }

  function Bump(f: Host -> int, m: Host, n: int): Host -> int {
    (x: Host) => if x == m then f(x) + n else f(x)
  }

  function With(s: State, p: Id, pg: Page, t: Tid, ph: Phase): State {
    s.(pages := s.pages[p := pg], toks := s.toks[t := Token(p, ph)])
  }

  ghost predicate At(s: State, t: Tid) {
    t in s.toks && s.toks[t].page in s.pages
  }

  /** The page a token refers to. */
  ghost function PageOf(s: State, t: Tid): Page
    requires At(s, t)
  {
    s.pages[s.toks[t].page]
  }

  ghost predicate In(s: State, t: Tid, ph: Phase) {
    At(s, t) && s.toks[t].phase == ph
  }

  ghost predicate Free(s: State, t: Tid) {
    At(s, t) && PageOf(s, t).lock.None?
  }

  ghost function HitStep(s: State, t: Tid, p: Id): State
    requires p in s.pages
  {
    var pg := s.pages[p];
    Link(With(s, p, pg.(refs := pg.refs + 1), t, Ready), p)
  }

  ghost function LoadedStep(s: State, t: Tid): State
    requires At(s, t)
  {
    var p, pg := s.toks[t].page, PageOf(s, t);
    With(s, p, pg.(data := s.disk(pg.key), loaded := true, lock := None), t, Has)
  }

  ghost function FailedStep(s: State, t: Tid, error: Error): State
    requires At(s, t)
  {
    var p, pg := s.toks[t].page, PageOf(s, t);
    With(s, p, pg.(hashed := false, refs := pg.refs - 1, error := Some(error), lock := None), t, Gone).(nr := s.nr - 1)
  }

  ghost function CheckStep(s: State, t: Tid): State
    requires At(s, t)
  {
    var p, pg := s.toks[t].page, PageOf(s, t);
    With(s, p, pg, t, if pg.error.None? then Has else Gone)
  }

  ghost function LockStep(s: State, t: Tid): State
    requires At(s, t)
  {
    With(s, s.toks[t].page, PageOf(s, t).(lock := Some(t)), t, Locked(false))
  }

  ghost function WriteStep(s: State, t: Tid, d: Data): State
    requires At(s, t)
  {
    With(s, s.toks[t].page, PageOf(s, t).(data := d), t, Locked(true))
  }

  ghost function MarkStep(s: State, t: Tid): State
    requires At(s, t)
  {
    var p, pg := s.toks[t].page, PageOf(s, t);
    var r := Link(With(s, p, pg.(flag := Dirty), t, s.toks[t].phase), p);
    if pg.flag == Dirty then r else r.(holds := Bump(s.holds, pg.key.host, 1))
  }

  ghost function UnlockStep(s: State, t: Tid): State
    requires At(s, t)
  {
    With(s, s.toks[t].page, PageOf(s, t).(lock := None), t, Has)
  }

  ghost function PutStep(s: State, t: Tid): State
    requires At(s, t)
  {
    var p, pg := s.toks[t].page, PageOf(s, t);
    if pg.refs == 1 then s.(pages := s.pages - {p}, toks := s.toks - {t})
    else Link(s.(pages := s.pages[p := pg.(refs := pg.refs - 1)], toks := s.toks - {t}), p)
  }

  ghost function BeginStep(s: State, t: Tid): State
    requires At(s, t)
  {
    var p, pg := s.toks[t].page, PageOf(s, t);
    Link(With(s, p, pg.(flag := Writeback, refs := pg.refs + 1, lock := Some(t)), t, Writing), p)
  }

  ghost function EndStep(s: State, t: Tid, err: Option<Error>, bad: Data): State
    requires At(s, t)
  {
    var p, pg := s.toks[t].page, PageOf(s, t);
    var r := Link(With(s, p, pg.(flag := Clean, refs := pg.refs - 1, lock := None), t, Has), p)
             .(owed := Bump(s.owed, pg.key.host, 1));
    if err.None?
    then r.(disk := Store(s.disk, pg.key, pg.data), lost := s.lost - {pg.key})
    else r.(disk := Store(s.disk, pg.key, bad), lost := s.lost + {pg.key},
            errors := s.errors[pg.key.host := err.value])
  }

  ghost function ReleaseStep(s: State, m: Host): State {
    s.(holds := Bump(s.holds, m, -1), owed := Bump(s.owed, m, -1))
  }

  ghost function PinStep(s: State, t: Tid, p: Id): State
    requires p in s.pages
  {
    With(s, p, s.pages[p].(refs := s.pages[p].refs + 1), t, Pinned)
  }

  ghost function CutStep(s: State, t: Tid): State
    requires At(s, t)
  {
    var p, pg := s.toks[t].page, PageOf(s, t);
    if !pg.hashed then With(s, p, pg, t, Gone)
    else With(s, p, pg.(hashed := false, flag := Clean, refs := pg.refs - 1, purged := true), t, Gone)
         .(dirty := Without(s.dirty, p), lru := Without(s.lru, p), nr := s.nr - 1,
           owed := if pg.flag == Dirty then Bump(s.owed, pg.key.host, 1) else s.owed)
  }

  ghost function PickStep(s: State, t: Tid, p: Id): State
    requires p in s.pages
  {
    var pg := s.pages[p];
    With(s, p, pg.(refs := pg.refs + 1), t, Has)
    .(holds := Bump(s.holds, pg.key.host, 1), owed := Bump(s.owed, pg.key.host, 1))
  }

  // What each step keeps.

  lemma PageFacts(s: State, p: Id, t: Tid)
    requires Inv(s) && p in s.pages
    ensures PageOk(s.pages[p], On(s, p), p in s.dirty, p in s.lru, s.disk(s.pages[p].key), s.pages[p].key in s.lost)
    ensures t in On(s, p) <==> t in s.toks && s.toks[t].page == p
    ensures t in On(s, p) ==> On(s, p)[t] == s.toks[t].phase
    ensures ListsOk(s) && forall m: Host :: s.owed(m) >= 0
  {
    hide PageOk, ListsOk, CountOk, UniqueOk, LostOk, Unclean;
    assert Ok(s, p);
  }

  lemma HitPage(pg: Page, ts: map<Tid, Phase>, t: Tid, d: bool, l: bool, onDisk: Data, lost: bool)
    requires PageOk(pg, ts, d, l, onDisk, lost) && t !in ts && pg.hashed
    ensures PageOk(pg.(refs := pg.refs + 1), ts[t := Ready], pg.flag != Clean, false, onDisk, lost)
    ensures pg.refs > 0
  {
  }

  lemma HitKeeps(s: State, t: Tid, p: Id)
    requires Inv(s) && t !in s.toks && Findable(s, p)
    ensures Inv(HitStep(s, t, p))
  {
    hide Inv, On, PageOk, ListsOk, ListsSame, Link;
    var pg := s.pages[p].(refs := s.pages[p].refs + 1);
    var w, r := With(s, p, pg, t, Ready), HitStep(s, t, p);
    PageFacts(s, p, t);
    HitPage(s.pages[p], On(s, p), t, p in s.dirty, p in s.lru, s.disk(pg.key), pg.key in s.lost);
    Linked(s, w, p);
    SetKeeps(s, r, p, pg, t, Ready);
  }

  lemma Linked(s: State, w: State, p: Id)
    requires ListsOk(s) && w.dirty == s.dirty && w.lru == s.lru && p in w.pages
    requires forall q: Id :: q in s.pages ==> q in w.pages
    ensures ListsOk(Link(w, p)) && ListsSame(s, Link(w, p), p)
    ensures p in Link(w, p).dirty <==> w.pages[p].hashed && w.pages[p].flag != Clean
    ensures p in Link(w, p).lru <==> w.pages[p].hashed && w.pages[p].flag == Clean && w.pages[p].refs == 1
    ensures Link(w, p) == w.(dirty := Link(w, p).dirty, lru := Link(w, p).lru)
  {
    LinkFacts(w, p);
  }

  lemma LoadedPage(pg: Page, ts: map<Tid, Phase>, t: Tid, d: bool, l: bool, onDisk: Data, lost: bool)
    requires PageOk(pg, ts, d, l, onDisk, lost) && t in ts && ts[t] == Loading
    ensures PageOk(pg.(data := onDisk, loaded := true, lock := None), ts[t := Has], d, l, onDisk, lost)
  {
  }

  lemma LoadedKeeps(s: State, t: Tid)
    requires Inv(s) && In(s, t, Loading)
    ensures Inv(LoadedStep(s, t))
  {
    hide Inv, On, PageOk, ListsOk;
    var p, r := s.toks[t].page, LoadedStep(s, t);
    PageFacts(s, p, t);
    LoadedPage(s.pages[p], On(s, p), t, p in s.dirty, p in s.lru, s.disk(s.pages[p].key), s.pages[p].key in s.lost);
    assert ListsOk(r) by { Unlisted(s, r); }
    SetKeeps(s, r, p, r.pages[p], t, Has);
  }

  /** Lists that did not change are still in order. */
  lemma Unlisted(s: State, r: State)
    requires ListsOk(s) && r.dirty == s.dirty && r.lru == s.lru
    requires forall q: Id :: q in s.pages ==> q in r.pages
    ensures ListsOk(r)
  {
  }

  lemma FailedPage(pg: Page, ts: map<Tid, Phase>, t: Tid, d: bool, l: bool, onDisk: Data, lost: bool, error: Error)
    requires PageOk(pg, ts, d, l, onDisk, lost) && t in ts && ts[t] == Loading
    ensures pg.hashed && pg.flag == Clean
    ensures PageOk(pg.(hashed := false, refs := pg.refs - 1, error := Some(error), lock := None), ts[t := Gone], d, l,
                   onDisk, lost)
  {
    assert ts.Keys != {};
  }

  lemma FailedKeeps(s: State, t: Tid, error: Error)
    requires Inv(s) && In(s, t, Loading)
    ensures Inv(FailedStep(s, t, error))
  {
    hide Inv, On, PageOk, ListsOk;
    var p, r := s.toks[t].page, FailedStep(s, t, error);
    PageFacts(s, p, t);
    FailedPage(s.pages[p], On(s, p), t, p in s.dirty, p in s.lru, s.disk(s.pages[p].key), s.pages[p].key in s.lost,
               error);
    assert ListsOk(r) by { Unlisted(s, r); }
    SetKeeps(s, r, p, r.pages[p], t, Gone);
  }

  lemma CheckPage(pg: Page, ts: map<Tid, Phase>, t: Tid, d: bool, l: bool, onDisk: Data, lost: bool)
    requires PageOk(pg, ts, d, l, onDisk, lost) && t in ts && ts[t] == Ready && pg.lock.None?
    ensures PageOk(pg, ts[t := if pg.error.None? then Has else Gone], d, l, onDisk, lost)
  {
  }

  lemma CheckKeeps(s: State, t: Tid)
    requires Inv(s) && In(s, t, Ready) && Free(s, t)
    ensures Inv(CheckStep(s, t))
  {
    hide Inv, On, PageOk, ListsOk;
    var p, r := s.toks[t].page, CheckStep(s, t);
    PageFacts(s, p, t);
    CheckPage(s.pages[p], On(s, p), t, p in s.dirty, p in s.lru, s.disk(s.pages[p].key), s.pages[p].key in s.lost);
    assert ListsOk(r) by { Unlisted(s, r); }
    SetKeeps(s, r, p, r.pages[p], t, r.toks[t].phase);
  }

  lemma LockPage(pg: Page, ts: map<Tid, Phase>, t: Tid, d: bool, l: bool, onDisk: Data, lost: bool)
    requires PageOk(pg, ts, d, l, onDisk, lost) && t in ts && ts[t] == Has && pg.lock.None?
    ensures PageOk(pg.(lock := Some(t)), ts[t := Locked(false)], d, l, onDisk, lost)
  {
  }

  lemma LockKeeps(s: State, t: Tid)
    requires Inv(s) && In(s, t, Has) && Free(s, t)
    ensures Inv(LockStep(s, t))
  {
    hide Inv, On, PageOk, ListsOk;
    var p, r := s.toks[t].page, LockStep(s, t);
    PageFacts(s, p, t);
    LockPage(s.pages[p], On(s, p), t, p in s.dirty, p in s.lru, s.disk(s.pages[p].key), s.pages[p].key in s.lost);
    assert ListsOk(r) by { Unlisted(s, r); }
    SetKeeps(s, r, p, r.pages[p], t, Locked(false));
  }

  lemma WritePage(pg: Page, ts: map<Tid, Phase>, t: Tid, d: bool, l: bool, onDisk: Data, lost: bool, x: Data)
    requires PageOk(pg, ts, d, l, onDisk, lost) && t in ts && ts[t].Locked? && pg.hashed
    ensures PageOk(pg.(data := x), ts[t := Locked(true)], d, l, onDisk, lost)
  {
  }

  lemma WriteKeeps(s: State, t: Tid, d: Data)
    requires Inv(s) && At(s, t) && s.toks[t].phase.Locked? && PageOf(s, t).hashed
    ensures Inv(WriteStep(s, t, d))
  {
    hide Inv, On, PageOk, ListsOk;
    var p, r := s.toks[t].page, WriteStep(s, t, d);
    PageFacts(s, p, t);
    WritePage(s.pages[p], On(s, p), t, p in s.dirty, p in s.lru, s.disk(s.pages[p].key), s.pages[p].key in s.lost, d);
    assert ListsOk(r) by { Unlisted(s, r); }
    SetKeeps(s, r, p, r.pages[p], t, Locked(true));
  }

  lemma MarkPage(pg: Page, ts: map<Tid, Phase>, t: Tid, d: bool, l: bool, onDisk: Data, lost: bool)
    requires PageOk(pg, ts, d, l, onDisk, lost) && t in ts && ts[t].Locked? && pg.hashed
    ensures PageOk(pg.(flag := Dirty), ts[t := ts[t]], true, false, onDisk, lost)
    ensures pg.flag != Writeback
  {
  }

  lemma MarkKeeps(s: State, t: Tid)
    requires Inv(s) && At(s, t) && s.toks[t].phase.Locked? && PageOf(s, t).hashed
    ensures Inv(MarkStep(s, t))
  {
    hide Inv, On, PageOk, ListsOk, ListsSame, Link;
    var p, r := s.toks[t].page, MarkStep(s, t);
    var pg := s.pages[p];
    var w := With(s, p, pg.(flag := Dirty), t, s.toks[t].phase);
    PageFacts(s, p, t);
    MarkPage(pg, On(s, p), t, p in s.dirty, p in s.lru, s.disk(pg.key), pg.key in s.lost);
    Linked(s, w, p);
    Relisted(s, Link(w, p), r, p);
    SetKeeps(s, r, p, r.pages[p], t, s.toks[t].phase);
  }

  /** Only the pages and the lists matter for the lists. */
  lemma Relisted(s: State, w: State, r: State, p: Id)
    requires ListsOk(w) && ListsSame(s, w, p) && r.dirty == w.dirty && r.lru == w.lru && r.pages == w.pages
    ensures ListsOk(r) && ListsSame(s, r, p)
  {
  }

  lemma UnlockPage(pg: Page, ts: map<Tid, Phase>, t: Tid, d: bool, l: bool, onDisk: Data, lost: bool)
    requires PageOk(pg, ts, d, l, onDisk, lost) && t in ts && ts[t].Locked? && (ts[t].touched ==> pg.flag == Dirty)
    ensures PageOk(pg.(lock := None), ts[t := Has], d, l, onDisk, lost)
  {
  }

  lemma UnlockKeeps(s: State, t: Tid)
    requires Inv(s) && At(s, t) && s.toks[t].phase.Locked? && (s.toks[t].phase.touched ==> PageOf(s, t).flag == Dirty)
    ensures Inv(UnlockStep(s, t))
  {
    hide Inv, On, PageOk, ListsOk;
    var p, r := s.toks[t].page, UnlockStep(s, t);
    PageFacts(s, p, t);
    UnlockPage(s.pages[p], On(s, p), t, p in s.dirty, p in s.lru, s.disk(s.pages[p].key), s.pages[p].key in s.lost);
    assert ListsOk(r) by { Unlisted(s, r); }
    SetKeeps(s, r, p, r.pages[p], t, Has);
  }

  lemma BeginPage(pg: Page, ts: map<Tid, Phase>, t: Tid, d: bool, l: bool, onDisk: Data, lost: bool)
    requires PageOk(pg, ts, d, l, onDisk, lost) && t in ts && ts[t] == Has && pg.lock.None? && pg.flag == Dirty
    ensures PageOk(pg.(flag := Writeback, refs := pg.refs + 1, lock := Some(t)), ts[t := Writing], true, false, onDisk,
                   lost)
    ensures pg.hashed
  {
  }

  lemma BeginKeeps(s: State, t: Tid)
    requires Inv(s) && In(s, t, Has) && Free(s, t) && PageOf(s, t).flag == Dirty
    ensures Inv(BeginStep(s, t))
  {
    hide Inv, On, PageOk, ListsOk, ListsSame, Link;
    var p, r := s.toks[t].page, BeginStep(s, t);
    var pg := s.pages[p];
    var w := With(s, p, pg.(flag := Writeback, refs := pg.refs + 1, lock := Some(t)), t, Writing);
    PageFacts(s, p, t);
    BeginPage(pg, On(s, p), t, p in s.dirty, p in s.lru, s.disk(pg.key), pg.key in s.lost);
    Linked(s, w, p);
    SetKeeps(s, r, p, r.pages[p], t, Writing);
  }

  lemma EndPage(pg: Page, ts: map<Tid, Phase>, t: Tid, d: bool, l: bool, onDisk: Data, lost: bool, now: Data,
                nowLost: bool)
    requires PageOk(pg, ts, d, l, onDisk, lost) && t in ts && ts[t] == Writing && (nowLost || now == pg.data)
    ensures PageOk(pg.(flag := Clean, refs := pg.refs - 1, lock := None), ts[t := Has], false, false, now, nowLost)
    ensures pg.hashed && pg.refs > 2 && pg.flag == Writeback
  {
    assert ts.Keys != {};
  }

  lemma EndKeeps(s: State, t: Tid, err: Option<Error>, bad: Data)
    requires Inv(s) && In(s, t, Writing)
    ensures Inv(EndStep(s, t, err, bad))
  {
    hide Inv, On, PageOk, ListsOk, ListsSame, Link;
    var p, r := s.toks[t].page, EndStep(s, t, err, bad);
    var pg := s.pages[p];
    var w := With(s, p, pg.(flag := Clean, refs := pg.refs - 1, lock := None), t, Has);
    PageFacts(s, p, t);
    EndPage(pg, On(s, p), t, p in s.dirty, p in s.lru, s.disk(pg.key), pg.key in s.lost, r.disk(pg.key),
            pg.key in r.lost);
    Linked(s, w, p);
    Relisted(s, Link(w, p), r, p);
    hide DiskSame;
    EndDisk(s, t, err, bad);
    SetKeeps(s, r, p, r.pages[p], t, Has);
  }

  lemma EndDisk(s: State, t: Tid, err: Option<Error>, bad: Data)
    requires At(s, t)
    ensures DiskSame(s, EndStep(s, t, err, bad), PageOf(s, t).key)
  {
  }

  lemma ReleaseKeeps(s: State, m: Host)
    requires Inv(s) && s.owed(m) > 0
    ensures Inv(ReleaseStep(s, m))
  {
    var r := ReleaseStep(s, m);
    hide PageOk, Distinct;
    forall p: Id | p in r.pages
      ensures Ok(r, p)
    {
      assert On(r, p) == On(s, p) && Ok(s, p);
    }
    assert Hashed(r) == Hashed(s);
    assert forall x: Host :: Unclean(r, x) == Unclean(s, x);
    assert forall p: Id :: Findable(r, p) == Findable(s, p);
  }

  lemma PinPage(pg: Page, ts: map<Tid, Phase>, t: Tid, d: bool, l: bool, onDisk: Data, lost: bool)
    requires PageOk(pg, ts, d, l, onDisk, lost) && t !in ts
    ensures PageOk(pg.(refs := pg.refs + 1), ts[t := Pinned], d, l, onDisk, lost)
  {
  }

  lemma PinKeeps(s: State, t: Tid, p: Id)
    requires Inv(s) && t !in s.toks && Findable(s, p)
    ensures Inv(PinStep(s, t, p))
  {
    hide Inv, On, PageOk, ListsOk;
    var r := PinStep(s, t, p);
    PageFacts(s, p, t);
    PinPage(s.pages[p], On(s, p), t, p in s.dirty, p in s.lru, s.disk(s.pages[p].key), s.pages[p].key in s.lost);
    assert ListsOk(r) by { Unlisted(s, r); }
    SetKeeps(s, r, p, r.pages[p], t, Pinned);
  }

  lemma CutPage(pg: Page, ts: map<Tid, Phase>, t: Tid, d: bool, l: bool, onDisk: Data, lost: bool)
    requires PageOk(pg, ts, d, l, onDisk, lost) && t in ts && ts[t] == Pinned && pg.lock.None?
    ensures pg.flag != Writeback
    ensures pg.hashed ==>
              PageOk(pg.(hashed := false, flag := Clean, refs := pg.refs - 1, purged := true), ts[t := Gone], false,
                     false, onDisk, lost)
    ensures !pg.hashed ==> PageOk(pg, ts[t := Gone], d, l, onDisk, lost)
  {
    assert ts.Keys != {};
  }

  lemma CutKeeps(s: State, t: Tid)
    requires Inv(s) && In(s, t, Pinned) && Free(s, t)
    ensures Inv(CutStep(s, t))
  {
    hide Inv, On, PageOk, ListsOk, ListsSame;
    var p, r := s.toks[t].page, CutStep(s, t);
    var pg := s.pages[p];
    PageFacts(s, p, t);
    CutPage(pg, On(s, p), t, p in s.dirty, p in s.lru, s.disk(pg.key), pg.key in s.lost);
    CutLists(s, r, p);
    SetKeeps(s, r, p, r.pages[p], t, Gone);
  }

  lemma CutLists(s: State, r: State, p: Id)
    requires ListsOk(s) && (forall q: Id :: q in s.pages ==> q in r.pages)
    requires (r.dirty == s.dirty && r.lru == s.lru) || (r.dirty == Without(s.dirty, p) && r.lru == Without(s.lru, p))
    ensures ListsOk(r) && ListsSame(s, r, p)
    ensures r.dirty == Without(s.dirty, p) ==> p !in r.dirty
    ensures r.lru == Without(s.lru, p) ==> p !in r.lru
  {
    WithoutFacts(s.dirty, p);
    WithoutFacts(s.lru, p);
  }

  lemma PickPage(pg: Page, ts: map<Tid, Phase>, t: Tid, l: bool, onDisk: Data, lost: bool)
    requires PageOk(pg, ts, true, l, onDisk, lost) && t !in ts
    ensures PageOk(pg.(refs := pg.refs + 1), ts[t := Has], true, l, onDisk, lost)
  {
  }

  lemma PickKeeps(s: State, t: Tid, p: Id)
    requires Inv(s) && t !in s.toks && p in s.pages && p in s.dirty
    ensures Inv(PickStep(s, t, p))
  {
    hide Inv, On, PageOk, ListsOk;
    var r := PickStep(s, t, p);
    PageFacts(s, p, t);
    PickPage(s.pages[p], On(s, p), t, p in s.lru, s.disk(s.pages[p].key), s.pages[p].key in s.lost);
    assert ListsOk(r) by { Unlisted(s, r); }
    SetKeeps(s, r, p, r.pages[p], t, Has);
  }

  lemma PutPage(pg: Page, ts: map<Tid, Phase>, t: Tid, d: bool, l: bool, onDisk: Data, lost: bool)
    requires PageOk(pg, ts, d, l, onDisk, lost) && t in ts && !Locks(ts[t]) && ts[t] != Pinned
    ensures pg.refs > 1 ==> PageOk(pg.(refs := pg.refs - 1), ts - {t}, pg.flag != Clean,
                                   pg.hashed && pg.flag == Clean && pg.refs == 2, onDisk, lost)
    ensures pg.refs == 1 ==> !pg.hashed && pg.flag == Clean && !d && !l && |ts| == 1
    ensures pg.refs >= 1
  {
    Fewer(ts, t);
  }

  lemma Fewer(ts: map<Tid, Phase>, t: Tid)
    requires t in ts
    ensures |ts - {t}| == |ts| - 1
  {
    assert ts == (ts - {t})[t := ts[t]];
  }

  lemma PutKeeps(s: State, t: Tid)
    requires Inv(s) && (In(s, t, Has) || In(s, t, Gone))
    ensures Inv(PutStep(s, t))
  {
    hide Inv, PutStep;
    if PageOf(s, t).refs == 1 {
      PutLast(s, t);
    } else {
      PutMore(s, t);
    }
  }

  lemma PutLast(s: State, t: Tid)
    requires Inv(s) && (In(s, t, Has) || In(s, t, Gone)) && PageOf(s, t).refs == 1
    ensures Inv(PutStep(s, t))
  {
    hide Inv, On, PageOk, ListsOk, ListsSame;
    var p, r := s.toks[t].page, PutStep(s, t);
    var pg := s.pages[p];
    PageFacts(s, p, t);
    PutPage(pg, On(s, p), t, p in s.dirty, p in s.lru, s.disk(pg.key), pg.key in s.lost);
    FreeLists(s, r, p);
    FreeTokens(s, r, p, t);
    RemoveKeeps(s, r, p);
  }

  lemma PutMore(s: State, t: Tid)
    requires Inv(s) && (In(s, t, Has) || In(s, t, Gone)) && PageOf(s, t).refs != 1
    ensures Inv(PutStep(s, t))
  {
    hide Inv, On, PageOk, ListsOk, ListsSame, Link;
    var p, r := s.toks[t].page, PutStep(s, t);
    var pg := s.pages[p];
    PageFacts(s, p, t);
    PutPage(pg, On(s, p), t, p in s.dirty, p in s.lru, s.disk(pg.key), pg.key in s.lost);
    Linked(s, s.(pages := s.pages[p := pg.(refs := pg.refs - 1)], toks := s.toks - {t}), p);
    DropKeeps(s, r, p, r.pages[p], t);
  }

  lemma FreeLists(s: State, r: State, p: Id)
    requires ListsOk(s) && r.dirty == s.dirty && p !in s.dirty && r.pages == s.pages - {p}
    requires (r.lru == s.lru && p !in s.lru) || (|s.lru| > 0 && s.lru[0] == p && r.lru == s.lru[1..])
    ensures ListsOk(r) && ListsSame(s, r, p)
  {
  }

  lemma FreeTokens(s: State, r: State, p: Id, t: Tid)
    requires t in s.toks && s.toks[t].page == p && |On(s, p)| == 1 && r.toks == s.toks - {t}
    ensures forall q: Id :: q != p ==> On(r, q) == On(s, q)
    ensures forall x: Tid :: x in r.toks ==> r.toks[x].page != p
  {
    OnDrop(s, r, t, p, p);
    forall x: Tid | x in r.toks
      ensures r.toks[x].page != p
    {
      assert r.toks[x].page == p ==> x in On(r, p);
    }
  }

  // ---------------------------------------------------------------------------------------------------------------
  // Making room
  // ---------------------------------------------------------------------------------------------------------------

  /** What mapping_make_room asserts about the page that it is about to evict. */
  ghost predicate VictimFree(s: State) {
    |s.lru| > 0 && s.lru[0] in s.pages && s.pages[s.lru[0]].refs == 1 && s.pages[s.lru[0]].flag == Clean
  }

  /** There is room, or room can be made. */
  ghost predicate Room(s: State) {
    s.nr < MAX || |s.lru| > 0
  }

  ghost function MakeRoom(s: State): State
    requires Room(s)
  {
    if s.nr < MAX then s else s.(pages := s.pages - {s.lru[0]}, lru := s.lru[1..], nr := s.nr - 1)
  }

  lemma VictimPage(pg: Page, ts: map<Tid, Phase>, d: bool, onDisk: Data, lost: bool)
    requires PageOk(pg, ts, d, true, onDisk, lost)
    ensures pg.hashed && pg.flag == Clean && !d && pg.refs == 1 + |ts|
    ensures pg.refs == 1 <==> ts == map[]
    ensures forall t: Tid :: t in ts ==> ts[t] == Pinned
    ensures pg.loaded && (!lost ==> pg.data == onDisk)
  {
    assert |ts| == 0 <==> ts == map[];
  }

  /** The assertion in mapping_make_room holds exactly if no thread is between the two halves of a purge of that page.
      */
  lemma VictimIff(s: State)
    requires Inv(s) && |s.lru| > 0
    ensures VictimFree(s) <==> !(exists t: Tid :: t in s.toks && s.toks[t] == Token(s.lru[0], Pinned))
  {
    var p := s.lru[0];
    assert p in s.lru && Ok(s, p);
    VictimPage(s.pages[p], On(s, p), p in s.dirty, s.disk(s.pages[p].key), s.pages[p].key in s.lost);
    assert forall t: Tid :: t in s.toks && s.toks[t].page == p ==> t in On(s, p) && s.toks[t].phase == On(s, p)[t];
    if On(s, p) != map[] {
      var t :| t in On(s, p);
      assert s.toks[t] == Token(p, Pinned);
    }
  }

  lemma MakeRoomKeeps(s: State)
    requires Inv(s) && Room(s) && (s.nr >= MAX ==> VictimFree(s))
    ensures Inv(MakeRoom(s)) && MakeRoom(s).nr < MAX
  {
    hide PagesOk, TokensOk, ListsOk, UniqueOk, HoldsOk, LostOk;
    if s.nr >= MAX {
      EvictKeeps(s);
    }
  }

  lemma EvictKeeps(s: State)
    requires Inv(s) && |s.lru| > 0 && s.nr == MAX && VictimFree(s)
    ensures Inv(MakeRoom(s))
  {
    hide Inv;
    var p, r := s.lru[0], MakeRoom(s);
    EvictFacts(s, r, p);
    hide On, ListsOk, ListsSame;
    RemoveKeeps(s, r, p);
  }

  lemma EvictFacts(s: State, r: State, p: Id)
    requires Inv(s) && |s.lru| > 0 && s.lru[0] == p && VictimFree(s) && r.dirty == s.dirty && r.lru == s.lru[1..]
    requires r.pages == s.pages - {p} && r.toks == s.toks
    ensures s.pages[p].hashed && s.pages[p].flag == Clean && ListsOk(r) && ListsSame(s, r, p)
    ensures (forall q: Id :: On(r, q) == On(s, q)) && forall t: Tid :: t in r.toks ==> r.toks[t].page != p
  {
    assert p in s.lru && Ok(s, p);
    hide ListsOk, ListsSame, HoldsOk, LostOk, CountOk, UniqueOk;
    VictimPage(s.pages[p], On(s, p), p in s.dirty, s.disk(s.pages[p].key), s.pages[p].key in s.lost);
    FreeLists(s, r, p);
    forall t: Tid | t in r.toks
      ensures r.toks[t].page != p
    {
      assert r.toks[t].page == p ==> t in On(s, p);
    }
  }

  /** If no room can be made, each of the MAX pages in the cache is in use or has not reached the backend. */
  lemma FullMeansBusy(s: State, p: Id)
    requires Inv(s) && !Room(s) && Findable(s, p)
    ensures |Hashed(s)| == MAX
    ensures s.pages[p].flag != Clean || exists t: Tid :: t in s.toks && s.toks[t].page == p
  {
    assert Ok(s, p);
    if s.pages[p].flag == Clean {
      assert On(s, p) != map[];
      var t :| t in On(s, p);
      assert t in s.toks && s.toks[t].page == p;
    }
  }

  ghost predicate NotCached(s: State, key: Key) {
    forall p: Id :: Findable(s, p) ==> s.pages[p].key != key
  }

  function NewPage(key: Key, t: Tid): Page {
    Page(key, 0, 2, true, Clean, false, None, Some(t), false)
  }

  ghost function AddStep(s: State, t: Tid, key: Key, p: Id): State {
    With(s, p, NewPage(key, t), t, Loading).(nr := s.nr + 1)
  }

  ghost function NewStep(s: State, t: Tid, key: Key, p: Id): State
    requires Room(s)
  {
    AddStep(MakeRoom(s), t, key, p)
  }

  lemma AddKeeps(s: State, t: Tid, key: Key, p: Id)
    requires Inv(s) && t !in s.toks && p !in s.pages && NotCached(s, key) && s.nr < MAX
    ensures Inv(AddStep(s, t, key, p))
  {
    var r := AddStep(s, t, key, p);
    hide PagesOk, ListsOk, UniqueOk, Hashed, Unclean, NotCached;
    AddPages(s, t, key, p);
    AddUnique(s, t, key, p);
    AddSets(s, r, p, t, key);
    assert ListsOk(r) by { Unlisted(s, r); }
  }

  lemma NewPageOk(key: Key, t: Tid, onDisk: Data, lost: bool)
    ensures PageOk(NewPage(key, t), map[t := Loading], false, false, onDisk, lost)
  {
    assert |map[t := Loading]| == 1;
  }

  lemma AddPages(s: State, t: Tid, key: Key, p: Id)
    requires PagesOk(s) && TokensOk(s) && ListsOk(s) && t !in s.toks && p !in s.pages
    ensures PagesOk(AddStep(s, t, key, p))
  {
    hide PageOk;
    var r := AddStep(s, t, key, p);
    assert On(s, p) == map[];
    forall q: Id | q in r.pages
      ensures Ok(r, q)
    {
      OnSet(s, r, t, p, Loading, q);
      if q != p {
        OkBeside(s, r, p, q);
      } else {
        NewPageOk(key, t, r.disk(key), key in r.lost);
      }
    }
  }

  lemma AddUnique(s: State, t: Tid, key: Key, p: Id)
    requires UniqueOk(s) && NotCached(s, key) && p !in s.pages
    ensures UniqueOk(AddStep(s, t, key, p))
  {
    var r := AddStep(s, t, key, p);
    forall x: Id, y: Id | Findable(r, x) && Findable(r, y) && r.pages[x].key == r.pages[y].key
      ensures x == y
    {
      assert x != p ==> Findable(s, x);
      assert y != p ==> Findable(s, y);
    }
  }

  lemma AddSets(s: State, r: State, p: Id, t: Tid, key: Key)
    requires p !in s.pages && r.pages == s.pages[p := NewPage(key, t)]
    ensures |Hashed(r)| == |Hashed(s)| + 1 && forall m: Host :: Unclean(r, m) == Unclean(s, m)
  {
    assert Hashed(r) == Hashed(s) + {p};
  }

  lemma NewKeeps(s: State, t: Tid, key: Key, p: Id)
    requires Inv(s) && t !in s.toks && p !in s.pages && NotCached(s, key) && Room(s)
    requires s.nr >= MAX ==> VictimFree(s)
    ensures Inv(NewStep(s, t, key, p))
  {
    MakeRoomKeeps(s);
    var w := MakeRoom(s);
    assert forall q: Id :: Findable(w, q) ==> Findable(s, q) && w.pages[q] == s.pages[q];
    hide Inv;
    AddKeeps(w, t, key, p);
  }

  // ---------------------------------------------------------------------------------------------------------------
  // Runs
  // ---------------------------------------------------------------------------------------------------------------

  ghost predicate Enabled(s: State, e: Event) {
    match e
    case Hit(t, p) => t !in s.toks && Findable(s, p)
    case New(t, key, p) =>
      t !in s.toks && p !in s.pages && NotCached(s, key) && Room(s) && (s.nr >= MAX ==> VictimFree(s))
    case Loaded(t) => In(s, t, Loading)
    case Failed(t, _) => In(s, t, Loading)
    case Check(t) => In(s, t, Ready) && Free(s, t)
    case Lock(t) => In(s, t, Has) && Free(s, t)
    case Write(t, _) => At(s, t) && s.toks[t].phase.Locked? && PageOf(s, t).hashed
    case Mark(t) => At(s, t) && s.toks[t].phase.Locked? && PageOf(s, t).hashed
    case Unlock(t) => At(s, t) && s.toks[t].phase.Locked? && (s.toks[t].phase.touched ==> PageOf(s, t).flag == Dirty)
    case Put(t) => In(s, t, Has) || In(s, t, Gone)
    case Begin(t) => In(s, t, Has) && Free(s, t) && PageOf(s, t).flag == Dirty
    case End(t, _, _) => In(s, t, Writing)
    case Release(m) => s.owed(m) > 0
    case Pin(t, p) => t !in s.toks && Findable(s, p)
    case Cut(t) => In(s, t, Pinned) && Free(s, t)
    case Pick(t, p) => t !in s.toks && p in s.pages && p in s.dirty
  }

  ghost function Apply(s: State, e: Event): State
    requires Enabled(s, e)
  {
    match e
    case Hit(t, p) => HitStep(s, t, p)
    case New(t, key, p) => NewStep(s, t, key, p)
    case Loaded(t) => LoadedStep(s, t)
    case Failed(t, error) => FailedStep(s, t, error)
    case Check(t) => CheckStep(s, t)
    case Lock(t) => LockStep(s, t)
    case Write(t, d) => WriteStep(s, t, d)
    case Mark(t) => MarkStep(s, t)
    case Unlock(t) => UnlockStep(s, t)
    case Put(t) => PutStep(s, t)
    case Begin(t) => BeginStep(s, t)
    case End(t, err, bad) => EndStep(s, t, err, bad)
    case Release(m) => ReleaseStep(s, m)
    case Pin(t, p) => PinStep(s, t, p)
    case Cut(t) => CutStep(s, t)
    case Pick(t, p) => PickStep(s, t, p)
  }

  lemma StepKeeps(s: State, e: Event)
    requires Inv(s) && Enabled(s, e)
    ensures Inv(Apply(s, e))
  {
    hide Inv;
    match e
    case Hit(t, p) => HitKeeps(s, t, p);
    case New(t, key, p) => NewKeeps(s, t, key, p);
    case Loaded(t) => LoadedKeeps(s, t);
    case Failed(t, error) => FailedKeeps(s, t, error);
    case Check(t) => CheckKeeps(s, t);
    case Lock(t) => LockKeeps(s, t);
    case Write(t, d) => WriteKeeps(s, t, d);
    case Mark(t) => MarkKeeps(s, t);
    case Unlock(t) => UnlockKeeps(s, t);
    case Put(t) => PutKeeps(s, t);
    case Begin(t) => BeginKeeps(s, t);
    case End(t, err, bad) => EndKeeps(s, t, err, bad);
    case Release(m) => ReleaseKeeps(s, m);
    case Pin(t, p) => PinKeeps(s, t, p);
    case Cut(t) => CutKeeps(s, t);
    case Pick(t, p) => PickKeeps(s, t, p);
  }

  ghost predicate Start(s: State) {
    && s.pages == map[] && s.toks == map[] && s.dirty == [] && s.lru == [] && s.nr == 0 && s.lost == {}
    && s.errors == map[] && forall m: Host :: s.holds(m) == 0 && s.owed(m) == 0
  }

  ghost predicate Runs(s: State, es: seq<Event>, r: State)
    decreases |es|
  {
    if es == [] then r == s else Enabled(s, es[0]) && Runs(Apply(s, es[0]), es[1..], r)
  }

  lemma StartOk(s: State)
    requires Start(s)
    ensures Inv(s)
  {
    assert Hashed(s) == {};
    assert forall m: Host :: Unclean(s, m) == {};
  }

  lemma {:induction false} RunKeeps(s: State, es: seq<Event>, r: State)
    requires Inv(s) && Runs(s, es, r)
    ensures Inv(r)
    decreases |es|
  {
    if es != [] {
      StepKeeps(s, es[0]);
      RunKeeps(Apply(s, es[0]), es[1..], r);
    }
  }

  /** In every run from an empty cache: at most one page is found for a key; there are at most MAX of them; a page on
      the LRU list is clean, is what the backend has unless its last write failed, and is referred to by nobody but
      threads that are about to discard it; and a host is held once for each of its pages that is dirty or being
      written, besides the holds that threads have yet to give back. */
  lemma Safe(s: State, es: seq<Event>, r: State)
    requires Start(s) && Runs(s, es, r)
    ensures forall p: Id, q: Id :: Findable(r, p) && Findable(r, q) && r.pages[p].key == r.pages[q].key ==> p == q
    ensures r.nr == |Hashed(r)| <= MAX
    ensures forall p: Id :: p in r.lru ==> Findable(r, p) && r.pages[p].flag == Clean && r.pages[p].loaded
    ensures forall p: Id :: p in r.lru && p in r.pages && r.pages[p].key !in r.lost ==>
              r.pages[p].data == r.disk(r.pages[p].key)
    ensures forall p: Id, t: Tid :: p in r.lru && t in r.toks && r.toks[t].page == p ==> r.toks[t].phase == Pinned
    ensures forall p: Id :: p in r.pages ==> (p in r.dirty <==> r.pages[p].flag != Clean)
    ensures forall m: Host :: r.holds(m) == |Unclean(r, m)| + r.owed(m)
    ensures |r.lru| > 0 ==>
              (VictimFree(r) <==> !(exists t: Tid :: t in r.toks && r.toks[t] == Token(r.lru[0], Pinned)))
  {
    StartOk(s);
    RunKeeps(s, es, r);
    if |r.lru| > 0 {
      VictimIff(r);
    }
    forall p: Id | p in r.lru
      ensures Findable(r, p) && r.pages[p].flag == Clean && r.pages[p].loaded
      ensures r.pages[p].key !in r.lost ==> r.pages[p].data == r.disk(r.pages[p].key)
      ensures forall t: Tid :: t in r.toks && r.toks[t].page == p ==> r.toks[t].phase == Pinned
    {
      OnLru(r, p);
    }
    hide PageOk;
    forall p: Id | p in r.pages
      ensures p in r.dirty <==> r.pages[p].flag != Clean
    {
      OnDirty(r, p);
    }
  }

  lemma OnLru(s: State, p: Id)
    requires Inv(s) && p in s.lru
    ensures Findable(s, p) && s.pages[p].flag == Clean && s.pages[p].loaded
    ensures s.pages[p].key !in s.lost ==> s.pages[p].data == s.disk(s.pages[p].key)
    ensures forall t: Tid :: t in s.toks && s.toks[t].page == p ==> s.toks[t].phase == Pinned
  {
    assert Ok(s, p);
    VictimPage(s.pages[p], On(s, p), p in s.dirty, s.disk(s.pages[p].key), s.pages[p].key in s.lost);
    assert forall t: Tid :: t in s.toks && s.toks[t].page == p ==> t in On(s, p) && s.toks[t].phase == On(s, p)[t];
  }

  lemma OnDirty(s: State, p: Id)
    requires Inv(s) && p in s.pages
    ensures p in s.dirty <==> s.pages[p].flag != Clean
  {
    assert Ok(s, p);
  }

  // ---------------------------------------------------------------------------------------------------------------
  // The cache as a plain store
  // ---------------------------------------------------------------------------------------------------------------

  /** mapping_get for k is answered from p. */
  ghost predicate Serves(s: State, p: Id, k: Key) {
    Findable(s, p) && s.pages[p].loaded && s.pages[p].key == k
  }

  /** What the system as a whole holds for k: the cached page if there is one, and what the backend has if not. */
  ghost function Contents(s: State, k: Key): Data {
    if exists p: Id :: Serves(s, p, k) then var p: Id :| Serves(s, p, k); s.pages[p].data else s.disk(k)
  }

  lemma ContentsAt(s: State, p: Id, k: Key)
    requires UniqueOk(s) && Serves(s, p, k)
    ensures Contents(s, k) == s.pages[p].data
  {
  }

  /** r has the same pages as s, except perhaps p. */
  ghost predicate SameBut(s: State, r: State, p: Id) {
    forall q: Id :: q != p ==> (q in s.pages <==> q in r.pages) && (q in s.pages ==> r.pages[q] == s.pages[q])
  }

  lemma ContentsAround(s: State, r: State, p: Id, k: Key)
    requires UniqueOk(s) && UniqueOk(r) && SameBut(s, r, p)
    ensures Serves(s, p, k) ==> Contents(s, k) == s.pages[p].data
    ensures Serves(r, p, k) ==> Contents(r, k) == r.pages[p].data
    ensures Serves(s, p, k) && !Serves(r, p, k) ==> Contents(r, k) == r.disk(k)
    ensures Serves(r, p, k) && !Serves(s, p, k) ==> Contents(s, k) == s.disk(k)
    ensures !Serves(s, p, k) && !Serves(r, p, k) && r.disk(k) == s.disk(k) ==> Contents(r, k) == Contents(s, k)
  {
    assert forall q: Id :: q != p ==> (Serves(s, q, k) <==> Serves(r, q, k));
    if q: Id :| Serves(s, q, k) && !Serves(s, p, k) {
      assert Serves(r, q, k) && !(Serves(r, p, k) && q != p);
      ContentsAt(s, q, k);
      ContentsAt(r, q, k);
    }
    if Serves(s, p, k) {
      ContentsAt(s, p, k);
      assert forall q: Id :: Serves(s, q, k) ==> q == p;
    }
    if Serves(r, p, k) {
      ContentsAt(r, p, k);
      assert forall q: Id :: Serves(r, q, k) ==> q == p;
    }
  }

  /** The contents that a plain store has after the step: only a write changes them, and discarding a dirty page puts
      back what the backend has. */
  ghost function Intended(s: State, e: Event, k: Key, was: Data): Data
    requires Enabled(s, e)
  {
    match e
    case Write(t, d) => if k == PageOf(s, t).key then d else was
    case Cut(t) => if Serves(s, s.toks[t].page, k) && PageOf(s, t).flag == Dirty then s.disk(k) else was
    case _ => was
  }

  /** A step that leaves what p serves alone. */
  lemma StillServes(s: State, r: State, p: Id, k: Key)
    requires Inv(s) && Inv(r) && SameBut(s, r, p) && (Serves(s, p, k) <==> Serves(r, p, k))
    requires Serves(s, p, k) ==> r.pages[p].data == s.pages[p].data
    requires !Serves(s, p, k) ==> r.disk(k) == s.disk(k)
    ensures Contents(r, k) == Contents(s, k)
  {
    hide PagesOk, ListsOk, CountOk, HoldsOk, UniqueOk, Contents, SameBut;
    ContentsAround(s, r, p, k);
  }

  /** A clean page that nobody is changing is what the backend has. */
  lemma CleanPage(s: State, p: Id, k: Key)
    requires Inv(s) && Serves(s, p, k) && s.pages[p].flag == Clean && k !in s.lost
    requires s.pages[p].lock.None?
    ensures s.pages[p].data == s.disk(k)
  {
    assert Ok(s, p);
  }

  /** The steps that change references, locks and lists only, and the page that they change. */
  ghost predicate PlainOn(s: State, e: Event, p: Id)
    requires Enabled(s, e)
  {
    match e
    case Hit(_, q) => p == q
    case Pin(_, q) => p == q
    case Pick(_, q) => p == q
    case Check(t) => p == s.toks[t].page
    case Lock(t) => p == s.toks[t].page
    case Mark(t) => p == s.toks[t].page
    case Unlock(t) => p == s.toks[t].page
    case Begin(t) => p == s.toks[t].page
    case Release(_) => true
    case _ => false
  }

  lemma PlainServes(s: State, e: Event, r: State, p: Id, k: Key)
    requires Enabled(s, e) && r == Apply(s, e) && PlainOn(s, e, p)
    ensures SameBut(s, r, p) && (Serves(s, p, k) <==> Serves(r, p, k)) && r.disk == s.disk
    ensures Serves(s, p, k) ==> r.pages[p].data == s.pages[p].data
  {
    hide Without, Bump;
  }

  lemma PlainRefines(s: State, e: Event, r: State, p: Id, k: Key)
    requires Inv(s) && Enabled(s, e) && r == Apply(s, e) && Inv(r) && PlainOn(s, e, p)
    ensures Contents(r, k) == Contents(s, k)
  {
    hide Inv, Contents, SameBut, Apply, Enabled, PlainOn;
    PlainServes(s, e, r, p, k);
    StillServes(s, r, p, k);
  }

  /** What a token says about its page. */
  lemma TokenIs(s: State, t: Tid)
    requires Inv(s) && At(s, t)
    ensures TokenOk(PageOf(s, t), t, s.toks[t].phase)
    ensures PageOf(s, t).flag != Clean ==> PageOf(s, t).hashed && PageOf(s, t).loaded
    ensures PageOf(s, t).refs == 1 ==> !PageOf(s, t).hashed
  {
    var p := s.toks[t].page;
    assert Ok(s, p);
    assert t in On(s, p) && On(s, p)[t] == s.toks[t].phase;
    assert On(s, p).Keys != {};
  }

  lemma Around(s: State, r: State, p: Id, k: Key)
    requires Inv(s) && Inv(r) && SameBut(s, r, p)
    ensures Serves(s, p, k) ==> Contents(s, k) == s.pages[p].data
    ensures Serves(r, p, k) ==> Contents(r, k) == r.pages[p].data
    ensures Serves(s, p, k) && !Serves(r, p, k) ==> Contents(r, k) == r.disk(k)
    ensures Serves(r, p, k) && !Serves(s, p, k) ==> Contents(s, k) == s.disk(k)
    ensures !Serves(s, p, k) && !Serves(r, p, k) && r.disk(k) == s.disk(k) ==> Contents(r, k) == Contents(s, k)
  {
    hide PagesOk, ListsOk, CountOk, HoldsOk, UniqueOk, Contents, SameBut, Serves;
    ContentsAround(s, r, p, k);
  }

  lemma EndRefines(s: State, t: Tid, err: Option<Error>, bad: Data, k: Key)
    requires Inv(s) && In(s, t, Writing) && Inv(EndStep(s, t, err, bad))
    ensures Contents(EndStep(s, t, err, bad), k) == Contents(s, k)
  {
    hide Inv, Contents, Without;
    TokenIs(s, t);
    var p, r := s.toks[t].page, EndStep(s, t, err, bad);
    assert SameBut(s, r, p);
    StillServes(s, r, p, k);
  }

  lemma LoadRefines(s: State, t: Tid, r: State, k: Key)
    requires Inv(s) && In(s, t, Loading) && Inv(r)
    requires r == LoadedStep(s, t) || exists error: Error :: r == FailedStep(s, t, error)
    ensures Contents(r, k) == Contents(s, k)
  {
    hide Inv, Contents;
    TokenIs(s, t);
    assert SameBut(s, r, s.toks[t].page);
    Around(s, r, s.toks[t].page, k);
  }

  lemma WriteRefines(s: State, t: Tid, d: Data, k: Key)
    requires Inv(s) && At(s, t) && s.toks[t].phase.Locked? && PageOf(s, t).hashed && Inv(WriteStep(s, t, d))
    ensures Contents(WriteStep(s, t, d), k) == if k == PageOf(s, t).key then d else Contents(s, k)
  {
    hide Inv, Contents;
    TokenIs(s, t);
    var p, r := s.toks[t].page, WriteStep(s, t, d);
    assert SameBut(s, r, p);
    Around(s, r, p, k);
  }

  lemma PutRefines(s: State, t: Tid, k: Key)
    requires Inv(s) && (In(s, t, Has) || In(s, t, Gone)) && Inv(PutStep(s, t))
    ensures Contents(PutStep(s, t), k) == Contents(s, k)
  {
    hide Inv, Contents, Without;
    TokenIs(s, t);
    var p, r := s.toks[t].page, PutStep(s, t);
    assert SameBut(s, r, p);
    StillServes(s, r, p, k);
  }

  lemma CutRefines(s: State, t: Tid, k: Key)
    requires Inv(s) && In(s, t, Pinned) && Free(s, t) && Inv(CutStep(s, t)) && k !in s.lost
    ensures Contents(CutStep(s, t), k)
         == if Serves(s, s.toks[t].page, k) && PageOf(s, t).flag == Dirty then s.disk(k) else Contents(s, k)
  {
    hide Inv, Contents, Without;
    var p, r := s.toks[t].page, CutStep(s, t);
    CutFlag(s, t);
    if Serves(s, p, k) && s.pages[p].flag == Clean {
      CleanPage(s, p, k);
    }
    assert SameBut(s, r, p);
    Around(s, r, p, k);
  }

  /** The assertion in mapping_purge: a page whose mutex is free is not being written. */
  lemma CutFlag(s: State, t: Tid)
    requires Inv(s) && Free(s, t)
    ensures PageOf(s, t).flag != Writeback
  {
    assert Ok(s, s.toks[t].page);
  }

  lemma RoomRefines(s: State, k: Key)
    requires Inv(s) && Room(s) && (s.nr >= MAX ==> VictimFree(s)) && k !in s.lost
    ensures Contents(MakeRoom(s), k) == Contents(s, k)
  {
    hide Inv, Contents;
    if s.nr >= MAX {
      MakeRoomKeeps(s);
      var p, r := s.lru[0], MakeRoom(s);
      OnLru(s, p);
      assert SameBut(s, r, p);
      Around(s, r, p, k);
    }
  }

  lemma NewRefines(s: State, t: Tid, key: Key, p: Id, k: Key)
    requires Inv(s) && Enabled(s, New(t, key, p)) && k !in s.lost
    ensures Contents(NewStep(s, t, key, p), k) == Contents(s, k)
  {
    hide Inv, Contents;
    MakeRoomKeeps(s);
    RoomRefines(s, k);
    NewKeeps(s, t, key, p);
    var w, r := MakeRoom(s), NewStep(s, t, key, p);
    assert SameBut(w, r, p);
    StillServes(w, r, p, k);
  }

  /** Every step changes what the system holds for a key as a plain store would, as long as no write of that key to the
      backend has failed: loading, evicting, writing back and dropping a page change nothing. */
  lemma StepRefines(s: State, e: Event, k: Key)
    requires Inv(s) && Enabled(s, e) && k !in s.lost
    ensures Contents(Apply(s, e), k) == Intended(s, e, k, Contents(s, k))
  {
    hide Inv, Contents;
    StepKeeps(s, e);
    var r := Apply(s, e);
    if e.New? { NewRefines(s, e.t, e.key, e.p, k); }
    else if e.Loaded? || e.Failed? { LoadRefines(s, e.t, r, k); }
    else if e.Write? { WriteRefines(s, e.t, e.d, k); }
    else if e.Put? { PutRefines(s, e.t, k); }
    else if e.End? { EndRefines(s, e.t, e.err, e.bad, k); }
    else if e.Cut? { CutRefines(s, e.t, k); }
    else if e.Release? { PlainRefines(s, e, r, 0, k); }
    else if e.Hit? || e.Pin? || e.Pick? { PlainRefines(s, e, r, e.p, k); }
    else { PlainRefines(s, e, r, s.toks[e.t].page, k); }
  }

  /** The step is a write of k to the backend that fails. */
  ghost predicate FailsFor(s: State, e: Event, k: Key)
    requires Enabled(s, e)
  {
    e.End? && e.err.Some? && PageOf(s, e.t).key == k
  }

  lemma StaysFound(s: State, e: Event, k: Key)
    requires Enabled(s, e) && k !in s.lost && !FailsFor(s, e, k)
    ensures k !in Apply(s, e).lost
  {
    hide Without;
  }

  /** What a plain store that held `was` for k holds after the steps; the steps include no failed write of k. */
  ghost predicate Replays(s: State, es: seq<Event>, k: Key, was: Data, now: Data)
    decreases |es|
  {
    if es == [] then now == was
    else
      && Enabled(s, es[0]) && !FailsFor(s, es[0], k)
      && Replays(Apply(s, es[0]), es[1..], k, Intended(s, es[0], k, was), now)
  }

  /** Over every run in which no write of k to the backend fails, the system holds for k what a plain store would: what
      was written last, or what the backend had when a dirty page was last discarded. */
  lemma {:induction false} RunRefines(s: State, es: seq<Event>, r: State, k: Key, now: Data)
    requires Inv(s) && k !in s.lost && Runs(s, es, r) && Replays(s, es, k, Contents(s, k), now)
    ensures Contents(r, k) == now && k !in r.lost
    decreases |es|
  {
    hide Inv, Contents, Enabled, Apply, Intended;
    if es != [] {
      StepKeeps(s, es[0]);
      StepRefines(s, es[0], k);
      StaysFound(s, es[0], k);
      RunRefines(Apply(s, es[0]), es[1..], r, k, now);
    }
  }

  /** A user that has a page's mutex sees the contents of the store for its key, unless the page was discarded. */
  lemma ReaderSees(s: State, t: Tid)
    requires Inv(s) && At(s, t) && s.toks[t].phase.Locked? && PageOf(s, t).hashed
    ensures Contents(s, PageOf(s, t).key) == PageOf(s, t).data
  {
    var p := s.toks[t].page;
    assert Ok(s, p) && On(s, p)[t].Locked?;
    ContentsAt(s, p, s.pages[p].key);
  }

  // ---------------------------------------------------------------------------------------------------------------
  // What each step is for
  // ---------------------------------------------------------------------------------------------------------------

  /** How far a step brings its own token, and what it does to the page: r is the state after it. */
  ghost predicate Does(s: State, e: Event, r: State)
    requires Enabled(s, e)
  {
    match e
    case Hit(t, p) => In(r, t, Ready) && r.toks[t].page == p && PageOf(r, t).refs == s.pages[p].refs + 1
    case New(t, key, p) =>
      In(r, t, Loading) && r.toks[t].page == p && PageOf(r, t).key == key && PageOf(r, t).hashed
    case Loaded(t) => In(r, t, Has) && PageOf(r, t).loaded && PageOf(r, t).lock.None?
    case Failed(t, error) =>
      In(r, t, Gone) && PageOf(r, t).error == Some(error) && !PageOf(r, t).hashed && PageOf(r, t).lock.None?
    case Check(t) => if PageOf(s, t).error.None? then In(r, t, Has) && PageOf(r, t).loaded else In(r, t, Gone)
    case Lock(t) => In(r, t, Locked(false)) && PageOf(r, t).lock == Some(t) && PageOf(r, t).data == PageOf(s, t).data
    case Write(t, d) => In(r, t, Locked(true)) && PageOf(r, t).data == d
    case Mark(t) => At(r, t) && r.toks[t] == s.toks[t] && PageOf(r, t).flag == Dirty && s.toks[t].page in r.dirty
    case Unlock(t) => In(r, t, Has) && PageOf(r, t).lock.None? && PageOf(r, t).flag == PageOf(s, t).flag
    case Put(t) => t !in r.toks
    case Begin(t) => In(r, t, Writing) && PageOf(r, t).lock == Some(t) && PageOf(r, t).flag == Writeback
    case End(t, err, bad) =>
      var k := PageOf(s, t).key;
      && In(r, t, Has) && PageOf(r, t).lock.None? && PageOf(r, t).flag == Clean
      && (err.None? ==> r.disk(k) == PageOf(s, t).data && k !in r.lost)
      && (err.Some? ==> r.disk(k) == bad && k in r.lost && k.host in r.errors && r.errors[k.host] == err.value)
    case Release(m) => r.owed(m) == s.owed(m) - 1 && r.holds(m) == s.holds(m) - 1
    case Pin(t, p) => In(r, t, Pinned) && r.toks[t].page == p
    case Cut(t) => In(r, t, Gone) && !PageOf(r, t).hashed && PageOf(r, t).flag == Clean
    case Pick(t, p) => In(r, t, Has) && r.toks[t].page == p
  }

  lemma StepDoes(s: State, e: Event, r: State)
    requires Inv(s) && Enabled(s, e) && r == Apply(s, e)
    ensures Does(s, e, r)
  {
    hide Inv, Does, Apply;
    if e.New? || e.Put? {
      EntryDoes(s, e, r);
    } else if e.Hit? || e.Loaded? || e.Failed? || e.Check? {
      LoadDoes(s, e, r);
    } else if e.Lock? || e.Write? || e.Mark? || e.Unlock? {
      UserDoes(s, e, r);
    } else {
      BackDoes(s, e, r);
    }
  }

  lemma EntryDoes(s: State, e: Event, r: State)
    requires Enabled(s, e) && r == Apply(s, e) && (e.New? || e.Put?)
    ensures Does(s, e, r)
  {
    hide Without;
  }

  lemma LoadDoes(s: State, e: Event, r: State)
    requires Inv(s) && Enabled(s, e) && r == Apply(s, e) && (e.Hit? || e.Loaded? || e.Failed? || e.Check?)
    ensures Does(s, e, r)
  {
    hide Inv, Without;
    if e.Check? && PageOf(s, e.t).error.None? { CheckLoaded(s, e.t); }
  }

  lemma UserDoes(s: State, e: Event, r: State)
    requires Enabled(s, e) && r == Apply(s, e) && (e.Lock? || e.Write? || e.Mark? || e.Unlock?)
    ensures Does(s, e, r)
  {
    hide Without;
  }

  lemma BackDoes(s: State, e: Event, r: State)
    requires Inv(s) && Enabled(s, e) && r == Apply(s, e)
    requires e.Begin? || e.End? || e.Release? || e.Pin? || e.Cut? || e.Pick?
    ensures Does(s, e, r)
  {
    hide Inv, Without;
    if e.Cut? { CutClean(s, e.t); }
  }

  /** A page whose mutex is free and that has no error is loaded. */
  lemma CheckLoaded(s: State, t: Tid)
    requires Inv(s) && Free(s, t) && PageOf(s, t).error.None?
    ensures PageOf(s, t).loaded
  {
    assert Ok(s, s.toks[t].page);
  }

  /** A page that cannot be found is clean. */
  lemma CutClean(s: State, t: Tid)
    requires Inv(s) && At(s, t)
    ensures !PageOf(s, t).hashed ==> PageOf(s, t).flag == Clean
  {
    assert Ok(s, s.toks[t].page);
  }

  /** A step of others leaves a token as it is, and its page with it; only a failed load of that page gives it an
      error. */
  ghost predicate Unmoved(s: State, e: Event, r: State, t: Tid)
    requires Enabled(s, e)
  {
    && At(s, t) && At(r, t) && r.toks[t] == s.toks[t] && PageOf(r, t).key == PageOf(s, t).key
    && (PageOf(r, t).error.Some? <==>
          PageOf(s, t).error.Some? || (e.Failed? && s.toks[e.t].page == s.toks[t].page))
  }

  lemma OtherToken(s: State, e: Event, r: State, t: Tid)
    requires Inv(s) && Enabled(s, e) && r == Apply(s, e) && At(s, t) && (e.Release? || e.t != t)
    ensures Unmoved(s, e, r, t)
  {
    hide Inv, Unmoved, NewStep, PutStep;
    if e.New? {
      NewBeside(s, e, r, t);
    } else if e.Put? {
      PutBeside(s, e, r, t);
    } else {
      EditBeside(s, e, r, t);
    }
  }

  lemma NewBeside(s: State, e: Event, r: State, t: Tid)
    requires Inv(s) && e.New? && Enabled(s, e) && r == Apply(s, e) && At(s, t) && e.t != t
    ensures Unmoved(s, e, r, t)
  {
    hide Inv;
    if s.nr >= MAX {
      EvictFacts(s, MakeRoom(s), s.lru[0]);
    }
  }

  lemma PutBeside(s: State, e: Event, r: State, t: Tid)
    requires Inv(s) && e.Put? && Enabled(s, e) && r == Apply(s, e) && At(s, t) && e.t != t
    ensures Unmoved(s, e, r, t)
  {
    hide Inv, Without;
    if PageOf(s, e.t).refs == 1 {
      LastToken(s, e.t);
    }
  }

  lemma EditBeside(s: State, e: Event, r: State, t: Tid)
    requires Enabled(s, e) && r == Apply(s, e) && At(s, t) && !e.New? && !e.Put? && (e.Release? || e.t != t)
    ensures Unmoved(s, e, r, t)
  {
    hide NewStep, PutStep, Without, Bump, Store, Unmoved;
    if e.Release? {
      ReleaseBeside(s, e, r, t);
    } else {
      var p := if e.Hit? || e.Pin? || e.Pick? then e.p else s.toks[e.t].page;
      EditedOther(s, e, r, p, r.pages[p], r.toks[e.t].phase, t);
    }
  }

  lemma ReleaseBeside(s: State, e: Event, r: State, t: Tid)
    requires e.Release? && Enabled(s, e) && r == Apply(s, e) && At(s, t)
    ensures Unmoved(s, e, r, t)
  {
  }

  lemma EditedOther(s: State, e: Event, r: State, p: Id, pg: Page, ph: Phase, t: Tid)
    requires Enabled(s, e) && !e.Release? && Edited(s, r, p, pg, e.t, Some(ph)) && At(s, t) && e.t != t
    requires e.Failed? ==> p == s.toks[e.t].page
    requires pg.error.Some? <==> s.pages[p].error.Some? || e.Failed?
    ensures Unmoved(s, e, r, t)
  {
    hide Enabled;
  }

  /** None of these steps is one of the token's own. */
  ghost predicate NotBy(es: seq<Event>, t: Tid) {
    forall i: nat :: i < |es| ==> es[i].Release? || es[i].t != t
  }

  /** One of these steps is a read of page p by the backend that fails. */
  ghost predicate LoadFails(s: State, es: seq<Event>, p: Id)
    decreases |es|
  {
    && es != [] && Enabled(s, es[0])
    && ((es[0].Failed? && s.toks[es[0].t].page == p) || LoadFails(Apply(s, es[0]), es[1..], p))
  }

  /** Whatever others do, a token waits where it is. */
  lemma {:induction false} TokenWaits(s: State, es: seq<Event>, r: State, t: Tid)
    requires Inv(s) && At(s, t) && Runs(s, es, r) && NotBy(es, t)
    ensures Inv(r) && At(r, t) && r.toks[t] == s.toks[t] && PageOf(r, t).key == PageOf(s, t).key
    ensures PageOf(r, t).error.Some? <==> PageOf(s, t).error.Some? || LoadFails(s, es, s.toks[t].page)
    decreases |es|
  {
    hide Inv, Enabled, Apply;
    if es != [] {
      var w := Apply(s, es[0]);
      StepKeeps(s, es[0]);
      OtherToken(s, es[0], w, t);
      TokenWaits(w, es[1..], r, t);
    }
  }

  /** A thread that finds a page in the cache: after any steps of others it looks at the page, and then has a plain
      reference to a loaded page with the key that it was looking for if and only if no load of the page has failed
      since it found it. Otherwise it only has to drop the reference. */
  lemma FoundIsHad(s: State, t: Tid, p: Id, es: seq<Event>, r: State, z: State)
    requires Inv(s) && Enabled(s, Hit(t, p)) && Runs(Apply(s, Hit(t, p)), es, r) && NotBy(es, t)
    requires Enabled(r, Check(t)) && z == Apply(r, Check(t))
    ensures At(z, t) && z.toks[t].page == p && PageOf(z, t).key == s.pages[p].key
    ensures In(z, t, Has) <==> !LoadFails(Apply(s, Hit(t, p)), es, p)
    ensures In(z, t, Has) ==> PageOf(z, t).loaded
    ensures In(z, t, Has) || In(z, t, Gone)
  {
    hide Inv, Runs, NotBy, LoadFails;
    var w := Apply(s, Hit(t, p));
    StepKeeps(s, Hit(t, p));
    StepDoes(s, Hit(t, p), w);
    HitSound(s, t, p, w);
    TokenWaits(w, es, r, t);
    StepDoes(r, Check(t), z);
    CheckSame(r, t, z);
  }

  lemma HitSound(s: State, t: Tid, p: Id, w: State)
    requires Inv(s) && Enabled(s, Hit(t, p)) && w == Apply(s, Hit(t, p))
    ensures At(w, t) && w.toks[t].page == p && PageOf(w, t).key == s.pages[p].key && PageOf(w, t).error.None?
  {
    hide Inv, Without;
    HashedSound(s, p);
  }

  lemma HashedSound(s: State, p: Id)
    requires Inv(s) && Findable(s, p)
    ensures s.pages[p].error.None?
  {
    assert Ok(s, p);
  }

  lemma CheckSame(s: State, t: Tid, r: State)
    requires Enabled(s, Check(t)) && r == Apply(s, Check(t))
    ensures At(r, t) && r.toks[t].page == s.toks[t].page && PageOf(r, t).key == PageOf(s, t).key
  {
  }

  /** A thread that does not find a page enters one: after any steps of others the backend's read ends, and the thread
      has a plain reference to a loaded page with its key if and only if the read succeeded. */
  lemma EnteredIsHad(s: State, t: Tid, key: Key, p: Id, es: seq<Event>, r: State)
    requires Inv(s) && Enabled(s, New(t, key, p)) && Runs(Apply(s, New(t, key, p)), es, r) && NotBy(es, t)
    ensures Inv(r) && Enabled(r, Loaded(t)) && PageOf(r, t).key == key
    ensures In(Apply(r, Loaded(t)), t, Has) && PageOf(Apply(r, Loaded(t)), t).loaded
    ensures PageOf(Apply(r, Loaded(t)), t).key == key
    ensures forall error :: Enabled(r, Failed(t, error)) && In(Apply(r, Failed(t, error)), t, Gone)
  {
    hide Inv, Runs, NotBy, LoadFails, NewStep;
    var w := Apply(s, New(t, key, p));
    StepKeeps(s, New(t, key, p));
    StepDoes(s, New(t, key, p), w);
    TokenWaits(w, es, r, t);
    StepDoes(r, Loaded(t), Apply(r, Loaded(t)));
  }

  /** A thread with a plain reference can lock the page as soon as its mutex is free, and then reads what the store
      holds for the key, unless the page was discarded. */
  lemma HadIsRead(s: State, t: Tid)
    requires Inv(s) && In(s, t, Has) && Free(s, t)
    ensures Enabled(s, Lock(t))
    ensures var r := Apply(s, Lock(t));
      && In(r, t, Locked(false)) && PageOf(r, t).key == PageOf(s, t).key
      && (PageOf(s, t).hashed ==> PageOf(r, t).data == Contents(s, PageOf(s, t).key))
  {
    hide Inv, Contents;
    TokenIs(s, t);
    if PageOf(s, t).hashed {
      HeldContents(s, t);
    }
  }

  lemma HeldContents(s: State, t: Tid)
    requires Inv(s) && At(s, t) && PageOf(s, t).hashed && PageOf(s, t).loaded
    ensures Contents(s, PageOf(s, t).key) == PageOf(s, t).data
  {
    ContentsAt(s, s.toks[t].page, PageOf(s, t).key);
  }

  /** The next step of a thread that is this far. */
  ghost function NextOf(s: State, t: Tid): Event
    requires At(s, t)
  {
    match s.toks[t].phase
    case Loading => Loaded(t)
    case Ready => Check(t)
    case Has => Lock(t)
    case Locked(touched) => if touched && PageOf(s, t).flag != Dirty then Mark(t) else Unlock(t)
    case Writing => End(t, None, 0)
    case Pinned => Cut(t)
    case Gone => Put(t)
  }

  /** Nobody is stuck: a thread can take its next step, or it waits for the page's mutex and the thread that has that
      can take its own. */
  lemma NobodyStuck(s: State, t: Tid)
    requires Inv(s) && At(s, t)
    ensures Enabled(s, NextOf(s, t)) ||
            (var lock := PageOf(s, t).lock;
             lock.Some? && At(s, lock.value) && s.toks[lock.value].page == s.toks[t].page
             && Enabled(s, NextOf(s, lock.value)))
  {
    hide Inv, Enabled, NextOf, TokenOk;
    TokenIs(s, t);
    if PageOf(s, t).lock.Some? {
      var x := PageOf(s, t).lock.value;
      HolderIs(s, s.toks[t].page);
      TokenIs(s, x);
      CanGo(s, x);
    } else {
      CanGo(s, t);
    }
  }

  lemma CanGo(s: State, t: Tid)
    requires At(s, t) && TokenOk(PageOf(s, t), t, s.toks[t].phase) && (Locks(s.toks[t].phase) || Free(s, t))
    ensures Enabled(s, NextOf(s, t))
  {
  }

  lemma HolderIs(s: State, p: Id)
    requires Inv(s) && p in s.pages && s.pages[p].lock.Some?
    ensures var x := s.pages[p].lock.value; At(s, x) && s.toks[x].page == p && Locks(s.toks[x].phase)
  {
    assert Ok(s, p);
    assert s.pages[p].lock.value in On(s, p);
  }

  // ---------------------------------------------------------------------------------------------------------------
  // Flushing a host that has a mutex
  // ---------------------------------------------------------------------------------------------------------------

  /** The phases that a thread without the host's mutex may be in: it cannot be in the middle of finding, changing,
      writing back or discarding one of the host's pages. */
  predicate Idle(ph: Phase) {
    ph == Has || ph == Locked(false) || ph == Gone
  }

  ghost predicate Tame(s: State, m: Host, mine: set<Tid>) {
    forall t: Tid :: At(s, t) && t !in mine && PageOf(s, t).key.host == m ==> Idle(s.toks[t].phase)
  }

  /** What other threads may do while mine, the tokens of the flush, belong to a thread that has the mutex of m. */
  ghost predicate Other(s: State, e: Event, m: Host, mine: set<Tid>)
    requires Enabled(s, e)
  {
    match e
    case Release(_) => true
    case Hit(t, p) => t !in mine && s.pages[p].key.host != m
    case Pin(t, p) => t !in mine && s.pages[p].key.host != m
    case New(t, key, _) => t !in mine && key.host != m
    case Pick(t, _) => t !in mine
    case Put(t) => t !in mine
    case Lock(t) => t !in mine
    case Unlock(t) => t !in mine
    case _ => e.t !in mine && PageOf(s, e.t).key.host != m
  }

  /** Nothing that a flush of m relies on changed from s to r. */
  ghost predicate Quiet(s: State, r: State, m: Host, mine: set<Tid>) {
    && (forall p: Id :: p in Unclean(s, m) ==> p in Unclean(r, m) && r.pages[p].flag == s.pages[p].flag)
    && (forall p: Id :: p in Unclean(r, m) ==> p in Unclean(s, m))
    && (forall t: Tid :: t in mine && At(s, t) ==>
          At(r, t) && r.toks[t] == s.toks[t] && PageOf(r, t).key == PageOf(s, t).key)
    && (forall t: Tid :: t in mine && t in r.toks ==> t in s.toks)
    && Tame(r, m, mine)
    && (m in r.errors <==> m in s.errors)
    && (forall k: Key :: k.host == m ==> r.disk(k) == s.disk(k) && (k in r.lost <==> k in s.lost))
  }

  lemma QuietThen(s: State, w: State, r: State, m: Host, mine: set<Tid>)
    requires Quiet(s, w, m, mine) && Quiet(w, r, m, mine)
    ensures Quiet(s, r, m, mine)
  {
    hide Unclean;
  }

  /** A step that changes one page, of another host or in nothing but references and locks, is quiet. */
  lemma EditQuiet(s: State, r: State, p: Id, pg: Page, t: Tid, ph: Option<Phase>, m: Host, mine: set<Tid>)
    requires Tame(s, m, mine) && Edited(s, r, p, pg, t, ph) && t !in mine
    requires pg.key.host == m ==> pg.flag == s.pages[p].flag && (ph.Some? ==> Idle(ph.value))
    requires m in r.errors <==> m in s.errors
    requires forall k: Key :: k.host == m ==> r.disk(k) == s.disk(k) && (k in r.lost <==> k in s.lost)
    ensures Quiet(s, r, m, mine)
  {
    EditTame(s, r, p, pg, t, ph, m, mine);
    EditUnclean(s, r, p, pg, t, ph, m);
    EditMine(s, r, p, pg, t, ph, mine);
    hide Tame, Idle, Unclean, Edited, At, PageOf;
  }

  lemma EditUnclean(s: State, r: State, p: Id, pg: Page, t: Tid, ph: Option<Phase>, m: Host)
    requires Edited(s, r, p, pg, t, ph) && (pg.key.host == m ==> pg.flag == s.pages[p].flag)
    ensures forall q: Id :: q in Unclean(s, m) ==> q in Unclean(r, m) && r.pages[q].flag == s.pages[q].flag
    ensures forall q: Id :: q in Unclean(r, m) ==> q in Unclean(s, m)
  {
  }

  lemma EditMine(s: State, r: State, p: Id, pg: Page, t: Tid, ph: Option<Phase>, mine: set<Tid>)
    requires Edited(s, r, p, pg, t, ph) && t !in mine
    ensures forall x: Tid :: x in mine && At(s, x) ==>
              At(r, x) && r.toks[x] == s.toks[x] && PageOf(r, x).key == PageOf(s, x).key
    ensures forall x: Tid :: x in mine && x in r.toks ==> x in s.toks
  {
  }

  lemma EditTame(s: State, r: State, p: Id, pg: Page, t: Tid, ph: Option<Phase>, m: Host, mine: set<Tid>)
    requires Tame(s, m, mine) && Edited(s, r, p, pg, t, ph)
    requires pg.key.host == m && ph.Some? ==> Idle(ph.value)
    ensures Tame(r, m, mine)
  {
    forall x: Tid | At(r, x) && x !in mine && PageOf(r, x).key.host == m
      ensures Idle(r.toks[x].phase)
    {
      assert x != t ==> At(s, x) && PageOf(s, x).key == PageOf(r, x).key;
    }
  }

  /** A step that frees a clean page that none of the flush's tokens refers to is quiet. */
  lemma RemoveQuiet(s: State, r: State, p: Id, m: Host, mine: set<Tid>)
    requires Tame(s, m, mine) && p in s.pages && s.pages[p].flag == Clean && r.pages == s.pages - {p}
    requires forall t: Tid :: t in r.toks ==> t in s.toks && r.toks[t] == s.toks[t]
    requires forall t: Tid :: t in mine && t in s.toks ==> t in r.toks && s.toks[t].page != p
    requires r.disk == s.disk && r.lost == s.lost && r.errors == s.errors
    ensures Quiet(s, r, m, mine)
  {
    forall x: Tid | At(r, x) && x !in mine && PageOf(r, x).key.host == m
      ensures Idle(r.toks[x].phase)
    {
      assert At(s, x) && PageOf(s, x) == PageOf(r, x);
    }
  }

  lemma PutQuiet(s: State, t: Tid, m: Host, mine: set<Tid>)
    requires Inv(s) && Tame(s, m, mine) && (In(s, t, Has) || In(s, t, Gone)) && t !in mine
    ensures Quiet(s, PutStep(s, t), m, mine)
  {
    hide Inv, Without, Quiet;
    var p, r := s.toks[t].page, PutStep(s, t);
    if PageOf(s, t).refs == 1 {
      LastToken(s, t);
      RemoveQuiet(s, r, p, m, mine);
    } else {
      EditQuiet(s, r, p, r.pages[p], t, None, m, mine);
    }
  }

  /** The last reference to a page. */
  lemma LastToken(s: State, t: Tid)
    requires Inv(s) && (In(s, t, Has) || In(s, t, Gone)) && PageOf(s, t).refs == 1
    ensures PageOf(s, t).flag == Clean && forall x: Tid :: x in s.toks && s.toks[x].page == s.toks[t].page ==> x == t
  {
    hide PagesOk, PageOk, ListsOk, CountOk, HoldsOk, UniqueOk, LostOk;
    var p := s.toks[t].page;
    LastPage(s, t);
    hide Inv;
    var r := s.(toks := s.toks - {t});
    FreeTokens(s, r, p, t);
    assert forall x: Tid :: x in s.toks && x != t ==> x in r.toks && r.toks[x] == s.toks[x];
  }

  lemma LastPage(s: State, t: Tid)
    requires Inv(s) && (In(s, t, Has) || In(s, t, Gone)) && PageOf(s, t).refs == 1
    ensures PageOf(s, t).flag == Clean && |On(s, s.toks[t].page)| == 1
  {
    hide PageOk, ListsOk, CountOk, HoldsOk, UniqueOk, LostOk;
    var p := s.toks[t].page;
    var pg := s.pages[p];
    assert Ok(s, p);
    PutPage(pg, On(s, p), t, p in s.dirty, p in s.lru, s.disk(pg.key), pg.key in s.lost);
  }

  lemma NewQuiet(s: State, t: Tid, key: Key, p: Id, m: Host, mine: set<Tid>)
    requires Inv(s) && Tame(s, m, mine) && Enabled(s, New(t, key, p)) && t !in mine && key.host != m
    ensures Quiet(s, NewStep(s, t, key, p), m, mine)
  {
    hide Inv, Quiet;
    var w, r := MakeRoom(s), NewStep(s, t, key, p);
    if s.nr >= MAX {
      EvictFacts(s, w, s.lru[0]);
      hide ListsOk, ListsSame, On;
      RemoveQuiet(s, w, s.lru[0], m, mine);
    } else {
      SameQuiet(s, m, mine);
    }
    AddQuiet(w, t, key, p, m, mine) by { TameAfter(s, w, m, mine); TokensIn(s); }
    QuietThen(s, w, r, m, mine);
  }

  lemma SameQuiet(s: State, m: Host, mine: set<Tid>)
    requires Tame(s, m, mine)
    ensures Quiet(s, s, m, mine)
  {
  }

  lemma TameAfter(s: State, r: State, m: Host, mine: set<Tid>)
    requires Quiet(s, r, m, mine)
    ensures Tame(r, m, mine)
  {
  }

  lemma TokensIn(s: State)
    requires Inv(s)
    ensures TokensOk(s)
  {
  }

  lemma AddQuiet(s: State, t: Tid, key: Key, p: Id, m: Host, mine: set<Tid>)
    requires Tame(s, m, mine) && t !in s.toks && p !in s.pages && t !in mine && key.host != m
    requires forall x: Tid :: x in s.toks ==> s.toks[x].page != p
    ensures Quiet(s, AddStep(s, t, key, p), m, mine)
  {
    var r := AddStep(s, t, key, p);
    forall x: Tid | At(r, x) && x !in mine && PageOf(r, x).key.host == m
      ensures Idle(r.toks[x].phase)
    {
      assert x != t ==> At(s, x) && PageOf(s, x) == PageOf(r, x);
    }
  }

  lemma ReleaseQuiet(s: State, h: Host, m: Host, mine: set<Tid>)
    requires Tame(s, m, mine)
    ensures Quiet(s, ReleaseStep(s, h), m, mine)
  {
    var r := ReleaseStep(s, h);
    assert forall t: Tid :: At(r, t) <==> At(s, t);
  }

  /** The remaining steps change one page. */
  lemma TokenQuiet(s: State, e: Event, m: Host, mine: set<Tid>)
    requires Tame(s, m, mine) && Enabled(s, e) && Other(s, e, m, mine)
    requires e.Loaded? || e.Failed? || e.Check? || e.Write? || e.Mark? || e.Begin? || e.Cut? || e.End? || e.Lock?
             || e.Unlock?
    ensures Quiet(s, Apply(s, e), m, mine)
  {
    hide Quiet, Without, Tame;
    var t, r := e.t, Apply(s, e);
    var p := s.toks[t].page;
    EditQuiet(s, r, p, r.pages[p], t, Some(r.toks[t].phase), m, mine);
  }

  lemma PageQuiet(s: State, e: Event, m: Host, mine: set<Tid>)
    requires Tame(s, m, mine) && Enabled(s, e) && Other(s, e, m, mine)
    requires e.Hit? || e.Pin? || e.Pick?
    ensures Quiet(s, Apply(s, e), m, mine)
  {
    hide Quiet, Without, Tame;
    var r := Apply(s, e);
    EditQuiet(s, r, e.p, r.pages[e.p], e.t, Some(r.toks[e.t].phase), m, mine);
  }

  lemma OtherQuiet(s: State, e: Event, m: Host, mine: set<Tid>)
    requires Inv(s) && Tame(s, m, mine) && Enabled(s, e) && Other(s, e, m, mine)
    ensures Quiet(s, Apply(s, e), m, mine)
  {
    hide Inv, Quiet, Tame;
    match e
    case Release(h) => ReleaseQuiet(s, h, m, mine);
    case Put(t) => PutQuiet(s, t, m, mine);
    case New(t, key, p) => NewQuiet(s, t, key, p, m, mine);
    case Hit(_, _) => PageQuiet(s, e, m, mine);
    case Pin(_, _) => PageQuiet(s, e, m, mine);
    case Pick(_, _) => PageQuiet(s, e, m, mine);
    case _ => TokenQuiet(s, e, m, mine);
  }

  /** Other threads take these steps. */
  ghost predicate OthersCan(s: State, es: seq<Event>, m: Host, mine: set<Tid>)
    decreases |es|
  {
    es == [] || (Enabled(s, es[0]) && Other(s, es[0], m, mine) && OthersCan(Apply(s, es[0]), es[1..], m, mine))
  }

  ghost function OthersDo(s: State, es: seq<Event>, m: Host, mine: set<Tid>): State
    requires OthersCan(s, es, m, mine)
    decreases |es|
  {
    if es == [] then s else OthersDo(Apply(s, es[0]), es[1..], m, mine)
  }

  /** The contents of the host's keys are the same, where no write has failed. */
  ghost predicate SameContents(s: State, r: State, m: Host) {
    forall k: Key :: k.host == m && k !in s.lost ==> Contents(r, k) == Contents(s, k)
  }

  lemma OtherContents(s: State, e: Event, m: Host, mine: set<Tid>)
    requires Inv(s) && Enabled(s, e) && Other(s, e, m, mine)
    ensures SameContents(s, Apply(s, e), m)
  {
    hide Inv, Contents;
    forall k: Key | k.host == m && k !in s.lost
      ensures Contents(Apply(s, e), k) == Contents(s, k)
    {
      StepRefines(s, e, k);
    }
  }

  lemma {:induction false} OthersQuiet(s: State, es: seq<Event>, m: Host, mine: set<Tid>)
    requires Inv(s) && Tame(s, m, mine) && OthersCan(s, es, m, mine)
    ensures Inv(OthersDo(s, es, m, mine)) && Quiet(s, OthersDo(s, es, m, mine), m, mine)
    ensures SameContents(s, OthersDo(s, es, m, mine), m)
    decreases |es|
  {
    hide Inv, Quiet, Tame, Contents, Enabled, Apply, Other;
    if es == [] {
      SameQuiet(s, m, mine);
    } else {
      var w, r := Apply(s, es[0]), OthersDo(s, es, m, mine);
      StepKeeps(s, es[0]);
      OtherQuiet(s, es[0], m, mine);
      OtherContents(s, es[0], m, mine);
      TameAfter(s, w, m, mine);
      OthersQuiet(w, es[1..], m, mine);
      QuietThen(s, w, r, m, mine);
      SameThen(s, w, r, m, mine);
    }
  }

  lemma SameThen(s: State, w: State, r: State, m: Host, mine: set<Tid>)
    requires SameContents(s, w, m) && SameContents(w, r, m) && Quiet(s, w, m, mine)
    ensures SameContents(s, r, m)
  {
    hide Contents, Tame, Unclean;
  }

  /** One pass of the loop in mapping_flush, for the page of token t. Others act before the page's mutex is taken, while
      the backend writes, and before the reference is dropped; the holds are given back in steps of theirs. */
  datatype Round = Round(before: seq<Event>, during: seq<Event>, err: Option<Error>, bad: Data, after: seq<Event>)

  /** mapping_writeback is called on the page of t when others have brought the state to s, and brings it to r. */
  ghost predicate Writes(s: State, m: Host, mine: set<Tid>, t: Tid, g: Round, r: State) {
    && In(s, t, Has) && Free(s, t)
    && if PageOf(s, t).flag == Dirty then
         var b := BeginStep(s, t);
         OthersCan(b, g.during, m, mine) &&
         var c := OthersDo(b, g.during, m, mine);
         In(c, t, Writing) && r == EndStep(c, t, g.err, g.bad)
       else g.err.None? && r == s
  }

  ghost predicate Flushes(s: State, m: Host, mine: set<Tid>, todo: seq<Tid>, gs: seq<Round>, ret: Option<Error>,
                          w: seq<State>, r: State, out: Option<Error>)
    decreases |todo|
  {
    if todo == [] then r == s && out == ret
    else
      && |gs| > 0 && |w| > 0 && OthersCan(s, gs[0].before, m, mine)
      && Writes(OthersDo(s, gs[0].before, m, mine), m, mine, todo[0], gs[0], w[0])
      && OthersCan(w[0], gs[0].after, m, mine)
      && var d := OthersDo(w[0], gs[0].after, m, mine);
      && In(d, todo[0], Has)
      && Flushes(PutStep(d, todo[0]), m, mine, todo[1..], gs[1..], if ret.None? then gs[0].err else ret, w[1..], r, out)
  }

  /** What a flush has established when the pages of todo are left; ph is the phase of the first of them. */
  ghost predicate Flushing(s: State, m: Host, mine: set<Tid>, todo: seq<Tid>, ph: Phase) {
    && Inv(s) && Tame(s, m, mine) && Distinct(todo)
    && (forall t: Tid :: t in todo ==>
          t in mine && In(s, t, if t == todo[0] then ph else Has) && PageOf(s, t).key.host == m)
    && (forall t: Tid :: t in mine && t in s.toks ==> t in todo)
    && (forall p: Id :: p in Unclean(s, m) ==> exists t: Tid :: t in todo && s.toks[t].page == p)
  }

  /** From s to r no write of m failed, and its contents are the same. */
  ghost predicate Intact(s: State, r: State, m: Host) {
    && SameContents(s, r, m) && (m in r.errors <==> m in s.errors)
    && forall k: Key :: k.host == m && k in r.lost ==> k in s.lost
  }

  lemma IntactThen(s: State, w: State, r: State, m: Host)
    requires Intact(s, w, m) && Intact(w, r, m)
    ensures Intact(s, r, m)
  {
    hide Contents;
  }

  /** Steps of others keep it. */
  lemma OthersFlushing(s: State, es: seq<Event>, m: Host, mine: set<Tid>, todo: seq<Tid>, ph: Phase)
    requires Flushing(s, m, mine, todo, ph) && OthersCan(s, es, m, mine)
    ensures Flushing(OthersDo(s, es, m, mine), m, mine, todo, ph) && Quiet(s, OthersDo(s, es, m, mine), m, mine)
    ensures Intact(s, OthersDo(s, es, m, mine), m)
  {
    hide Inv, Contents, Tame, Unclean, OthersDo, OthersCan, SameContents, Distinct;
    OthersQuiet(s, es, m, mine);
  }

  lemma BeginFlushing(s: State, m: Host, mine: set<Tid>, todo: seq<Tid>)
    requires Flushing(s, m, mine, todo, Has) && todo != [] && Free(s, todo[0]) && PageOf(s, todo[0]).flag == Dirty
    ensures Flushing(BeginStep(s, todo[0]), m, mine, todo, Writing) && Intact(s, BeginStep(s, todo[0]), m)
  {
    hide Inv, Contents, Distinct, Without;
    var t := todo[0];
    assert t in todo;
    var r := BeginStep(s, t);
    BeginKeeps(s, t);
    forall k: Key
      ensures Contents(r, k) == Contents(s, k)
    {
      PlainRefines(s, Begin(t), r, s.toks[t].page, k);
    }
    OwnEdit(s, r, m, mine, todo, Has, Writing);
  }

  lemma OwnTame(s: State, r: State, m: Host, mine: set<Tid>, t: Tid, now: Phase)
    requires Tame(s, m, mine) && t in mine && At(s, t) && r.toks == s.toks[t := Token(s.toks[t].page, now)]
    requires SameBut(s, r, s.toks[t].page) && At(r, t) && PageOf(r, t).key == PageOf(s, t).key
    ensures Tame(r, m, mine)
  {
    forall x: Tid | At(r, x) && x !in mine && PageOf(r, x).key.host == m
      ensures Idle(r.toks[x].phase)
    {
      assert At(s, x) && PageOf(s, x).key == PageOf(r, x).key;
    }
  }

  /** A step of the first token of the flush that changes its page and keeps it unclean, or makes it clean. */
  lemma OwnEdit(s: State, r: State, m: Host, mine: set<Tid>, todo: seq<Tid>, ph: Phase, now: Phase)
    requires Flushing(s, m, mine, todo, ph) && todo != [] && Inv(r) && todo[0] in todo && At(s, todo[0])
    requires r.toks == s.toks[todo[0] := Token(s.toks[todo[0]].page, now)]
    requires SameBut(s, r, s.toks[todo[0]].page)
    requires At(r, todo[0]) && PageOf(r, todo[0]).key == PageOf(s, todo[0]).key && PageOf(s, todo[0]).flag != Clean
    ensures Flushing(r, m, mine, todo, now)
  {
    hide Inv, Distinct, Tame;
    var t := todo[0];
    OwnTame(s, r, m, mine, t, now);
    forall x: Tid | x in todo
      ensures In(r, x, if x == t then now else Has) && PageOf(r, x).key.host == m
    {
      assert In(s, x, if x == t then ph else Has);
    }
    forall p: Id | p in Unclean(r, m)
      ensures exists x: Tid :: x in todo && r.toks[x].page == p
    {
      assert p in Unclean(s, m);
      var x: Tid :| x in todo && s.toks[x].page == p;
      assert r.toks[x].page == p;
    }
  }

  lemma EndFlushing(s: State, m: Host, mine: set<Tid>, todo: seq<Tid>, err: Option<Error>, bad: Data)
    requires Flushing(s, m, mine, todo, Writing) && todo != [] && todo[0] in todo && In(s, todo[0], Writing)
    ensures Flushing(EndStep(s, todo[0], err, bad), m, mine, todo, Has)
    ensures PageOf(EndStep(s, todo[0], err, bad), todo[0]).flag == Clean
    ensures err.None? ==> Intact(s, EndStep(s, todo[0], err, bad), m)
  {
    hide Inv, Contents, Distinct, Without;
    var t := todo[0];
    var r := EndStep(s, t, err, bad);
    EndKeeps(s, t, err, bad);
    TokenIs(s, t);
    forall k: Key
      ensures Contents(r, k) == Contents(s, k)
    {
      EndRefines(s, t, err, bad, k);
    }
    OwnEdit(s, r, m, mine, todo, Writing, Has);
  }

  lemma PutFlushing(s: State, m: Host, mine: set<Tid>, todo: seq<Tid>)
    requires Flushing(s, m, mine, todo, Has) && todo != [] && In(s, todo[0], Has) && PageOf(s, todo[0]).flag == Clean
    ensures Flushing(PutStep(s, todo[0]), m, mine, todo[1..], Has) && Intact(s, PutStep(s, todo[0]), m)
  {
    hide Inv, Contents, Without, Distinct, Flushing;
    var t := todo[0];
    var r := PutStep(s, t);
    FlushingInv(s, m, mine, todo, Has);
    PutKeeps(s, t);
    forall k: Key
      ensures Contents(r, k) == Contents(s, k)
    {
      PutRefines(s, t, k);
    }
    if PageOf(s, t).refs == 1 {
      LastToken(s, t);
    }
    PutPages(s, t);
    PutRest(s, r, m, mine, todo);
  }

  lemma FlushingInv(s: State, m: Host, mine: set<Tid>, todo: seq<Tid>, ph: Phase)
    requires Flushing(s, m, mine, todo, ph)
    ensures Inv(s) && Tame(s, m, mine)
  {
  }

  /** A put leaves the key and the flag of every page that is still there. */
  lemma PutPages(s: State, t: Tid)
    requires At(s, t)
    ensures PutStep(s, t).toks == s.toks - {t}
    ensures forall p: Id :: p in PutStep(s, t).pages ==>
              && p in s.pages && PutStep(s, t).pages[p].key == s.pages[p].key
              && PutStep(s, t).pages[p].flag == s.pages[p].flag
    ensures forall p: Id :: p in s.pages && (p != s.toks[t].page || PageOf(s, t).refs != 1) ==> p in PutStep(s, t).pages
  {
    hide Without;
  }

  lemma PutRest(s: State, r: State, m: Host, mine: set<Tid>, todo: seq<Tid>)
    requires Flushing(s, m, mine, todo, Has) && todo != [] && In(s, todo[0], Has) && Inv(r)
    requires PageOf(s, todo[0]).flag == Clean && r.toks == s.toks - {todo[0]}
    requires forall p: Id :: p in r.pages ==>
               p in s.pages && r.pages[p].key == s.pages[p].key && r.pages[p].flag == s.pages[p].flag
    requires forall x: Tid :: x in r.toks && x in s.toks && s.toks[x].page in s.pages ==> s.toks[x].page in r.pages
    ensures Flushing(r, m, mine, todo[1..], Has)
  {
    hide Inv, Distinct, Unclean, Tame;
    var rest := todo[1..];
    RestOf(todo);
    assert Tame(r, m, mine) by { TameLess(s, r, m, mine); }
    forall x: Tid | x in rest
      ensures x in mine && In(r, x, Has) && PageOf(r, x).key.host == m
    {
      assert x in todo && x != todo[0] && In(s, x, Has);
    }
    forall p: Id | p in Unclean(r, m)
      ensures exists x: Tid :: x in rest && r.toks[x].page == p
    {
      UncleanWas(s, r, p, m);
      var x: Tid :| x in todo && s.toks[x].page == p;
      assert x != todo[0];
      assert x in rest && r.toks[x].page == p;
    }
  }

  lemma RestOf(todo: seq<Tid>)
    requires todo != [] && Distinct(todo)
    ensures Distinct(todo[1..]) && forall x: Tid :: x in todo[1..] <==> x in todo && x != todo[0]
  {
    var rest := todo[1..];
    assert forall i: nat :: i < |rest| ==> rest[i] == todo[i + 1];
    assert todo == [todo[0]] + rest;
  }

  lemma TameLess(s: State, r: State, m: Host, mine: set<Tid>)
    requires Tame(s, m, mine) && forall t: Tid :: t in r.toks ==> t in s.toks && r.toks[t] == s.toks[t]
    requires forall p: Id :: p in r.pages ==> p in s.pages && r.pages[p].key == s.pages[p].key
    ensures Tame(r, m, mine)
  {
    forall x: Tid | At(r, x) && x !in mine && PageOf(r, x).key.host == m
      ensures Idle(r.toks[x].phase)
    {
      assert At(s, x) && PageOf(s, x).key == PageOf(r, x).key;
    }
  }

  lemma UncleanWas(s: State, r: State, p: Id, m: Host)
    requires forall q: Id :: q in r.pages ==>
               q in s.pages && r.pages[q].key == s.pages[q].key && r.pages[q].flag == s.pages[q].flag
    requires p in Unclean(r, m)
    ensures p in Unclean(s, m) && p in s.pages && s.pages[p].flag != Clean
  {
  }

  lemma WriteFlushing(s: State, m: Host, mine: set<Tid>, todo: seq<Tid>, g: Round, r: State)
    requires Flushing(s, m, mine, todo, Has) && todo != [] && todo[0] in todo && Writes(s, m, mine, todo[0], g, r)
    ensures Flushing(r, m, mine, todo, Has) && At(r, todo[0]) && PageOf(r, todo[0]).flag == Clean
    ensures g.err.None? ==> Intact(s, r, m)
  {
    hide Flushing, Intact, Inv, BeginStep, EndStep, OthersCan, OthersDo;
    var t := todo[0];
    FlushingInv(s, m, mine, todo, Has);
    if PageOf(s, t).flag == Dirty {
      var b := BeginStep(s, t);
      BeginFlushing(s, m, mine, todo);
      var c := OthersDo(b, g.during, m, mine);
      OthersFlushing(b, g.during, m, mine, todo, Writing);
      EndFlushing(c, m, mine, todo, g.err, g.bad);
      FirstAt(r, m, mine, todo, Has);
      IntactThen(s, b, c, m);
      if g.err.None? {
        IntactThen(s, c, r, m);
      }
    } else {
      CutFlag(s, t);
      IntactSame(s, m);
    }
  }

  lemma FirstAt(s: State, m: Host, mine: set<Tid>, todo: seq<Tid>, ph: Phase)
    requires Flushing(s, m, mine, todo, ph) && todo != []
    ensures todo[0] in mine && In(s, todo[0], ph) && PageOf(s, todo[0]).key.host == m
  {
  }

  lemma IntactSame(s: State, m: Host)
    ensures Intact(s, s, m)
  {
  }

  /** A page that is clean stays clean while only others act. */
  lemma CleanStays(s: State, r: State, m: Host, mine: set<Tid>, t: Tid)
    requires Quiet(s, r, m, mine) && t in mine && At(s, t) && PageOf(s, t).flag == Clean && PageOf(s, t).key.host == m
    ensures At(r, t) && PageOf(r, t).flag == Clean
  {
    assert s.toks[t].page !in Unclean(s, m);
  }

  lemma {:induction false} FlushRuns(s: State, m: Host, mine: set<Tid>, todo: seq<Tid>, gs: seq<Round>,
                                     ret: Option<Error>, w: seq<State>, r: State, out: Option<Error>)
    requires Flushing(s, m, mine, todo, Has) && Flushes(s, m, mine, todo, gs, ret, w, r, out)
    ensures Flushing(r, m, mine, [], Has)
    ensures ret.Some? ==> out.Some?
    ensures out.None? ==> Intact(s, r, m)
    decreases |todo|
  {
    hide Flushing, Intact, Writes, OthersCan, OthersDo, PutStep, Inv, Quiet;
    if todo == [] {
      IntactSame(s, m);
    } else {
      var t, g := todo[0], gs[0];
      assert t in todo;
      var a := OthersDo(s, g.before, m, mine);
      OthersFlushing(s, g.before, m, mine, todo, Has);
      WriteFlushing(a, m, mine, todo, g, w[0]);
      var d := OthersDo(w[0], g.after, m, mine);
      OthersFlushing(w[0], g.after, m, mine, todo, Has);
      FirstAt(w[0], m, mine, todo, Has);
      CleanStays(w[0], d, m, mine, t);
      PutFlushing(d, m, mine, todo);
      FlushRuns(PutStep(d, t), m, mine, todo[1..], gs[1..], if ret.None? then g.err else ret, w[1..], r, out);
      if out.None? {
        IntactThen(s, a, w[0], m);
        IntactThen(s, w[0], d, m);
        IntactThen(s, d, PutStep(d, t), m);
        IntactThen(s, PutStep(d, t), r, m);
      }
    }
  }

  /** The pages of m among ps. */
  ghost function PagesOf(s: State, m: Host, ps: seq<Id>): seq<Id>
    requires forall p: Id :: p in ps ==> p in s.pages
  {
    if ps == [] then []
    else (if s.pages[ps[0]].key.host == m then [ps[0]] else []) + PagesOf(s, m, ps[1..])
  }

  lemma {:induction false} PagesOfFacts(s: State, m: Host, ps: seq<Id>)
    requires forall p: Id :: p in ps ==> p in s.pages
    ensures forall p: Id :: p in PagesOf(s, m, ps) <==> p in ps && s.pages[p].key.host == m
  {
    if ps != [] {
      PagesOfFacts(s, m, ps[1..]);
      assert ps == [ps[0]] + ps[1..];
    }
  }

  /** mapping_collect: a reference to each of these pages. */
  ghost function Gather(s: State, ps: seq<Id>, ts: seq<Tid>): State
    requires |ps| == |ts| && forall p: Id :: p in ps ==> p in s.pages
    decreases |ps|
  {
    if ps == [] then s else Gather(PickStep(s, ts[0], ps[0]), ps[1..], ts[1..])
  }

  /** r is s with the references ts more. */
  ghost predicate Extended(s: State, r: State, ts: seq<Tid>) {
    && (forall p: Id :: p in r.pages <==> p in s.pages)
    && (forall p: Id :: p in s.pages && p in r.pages ==>
          r.pages[p].key == s.pages[p].key && r.pages[p].flag == s.pages[p].flag)
    && (forall t: Tid :: t in s.toks ==> t in r.toks && r.toks[t] == s.toks[t])
    && (forall t: Tid :: t in r.toks ==> t in s.toks || t in ts)
    && r.dirty == s.dirty && r.errors == s.errors && r.lost == s.lost
    && forall k: Key :: Contents(r, k) == Contents(s, k)
  }

  /** Each of them is to its page. */
  ghost predicate Refer(r: State, ps: seq<Id>, ts: seq<Tid>)
    requires |ps| == |ts|
  {
    forall i: nat :: i < |ts| ==> ts[i] in r.toks && r.toks[ts[i]] == Token(ps[i], Has)
  }

  ghost predicate Gathered(s: State, r: State, ps: seq<Id>, ts: seq<Tid>)
    requires |ps| == |ts|
  {
    Extended(s, r, ts) && Refer(r, ps, ts)
  }

  lemma {:induction false} GatherFacts(s: State, ps: seq<Id>, ts: seq<Tid>)
    requires Inv(s) && |ps| == |ts| && (forall p: Id :: p in ps ==> p in s.pages && p in s.dirty)
    requires Distinct(ts) && forall t: Tid :: t in ts ==> t !in s.toks
    ensures Inv(Gather(s, ps, ts)) && Gathered(s, Gather(s, ps, ts), ps, ts)
    decreases |ps|
  {
    hide Inv, Contents;
    if ps != [] {
      var w, r := PickStep(s, ts[0], ps[0]), Gather(s, ps, ts);
      PickKeeps(s, ts[0], ps[0]);
      forall k: Key
        ensures Contents(w, k) == Contents(s, k)
      {
        PlainRefines(s, Pick(ts[0], ps[0]), w, ps[0], k);
      }
      assert forall i: nat :: i < |ts[1..]| ==> ts[1..][i] == ts[i + 1];
      GatherFacts(w, ps[1..], ts[1..]);
      GatheredCons(s, w, r, ps, ts);
    }
  }

  lemma GatheredCons(s: State, w: State, r: State, ps: seq<Id>, ts: seq<Tid>)
    requires |ps| == |ts| > 0 && ps[0] in s.pages && w == PickStep(s, ts[0], ps[0])
    requires Gathered(w, r, ps[1..], ts[1..]) && (forall k: Key :: Contents(w, k) == Contents(s, k)) && ts[0] !in s.toks
    ensures Gathered(s, r, ps, ts)
  {
    hide Contents, PickStep, Extended, Refer;
    PickExtends(s, w, ps[0], ts[0]);
    ExtendedThen(s, w, r, ts[0], ts[1..]);
    GatheredTokens(r, ps, ts);
    assert ts == [ts[0]] + ts[1..];
  }

  lemma PickExtends(s: State, w: State, p: Id, t: Tid)
    requires p in s.pages && t !in s.toks && w == PickStep(s, t, p) && forall k: Key :: Contents(w, k) == Contents(s, k)
    ensures Extended(s, w, [t]) && t in w.toks && w.toks[t] == Token(p, Has)
  {
    hide Contents, PickStep;
    PickFacts(s, t, p);
  }

  lemma ExtendedThen(s: State, w: State, r: State, t: Tid, ts: seq<Tid>)
    requires Extended(s, w, [t]) && Extended(w, r, ts) && t in w.toks
    ensures Extended(s, r, [t] + ts) && t in r.toks && r.toks[t] == w.toks[t]
  {
    hide Contents;
  }

  lemma PickFacts(s: State, t: Tid, p: Id)
    requires p in s.pages
    ensures var w := PickStep(s, t, p);
      && w.pages.Keys == s.pages.Keys && w.toks == s.toks[t := Token(p, Has)]
      && (forall q: Id :: q in s.pages ==> w.pages[q].key == s.pages[q].key && w.pages[q].flag == s.pages[q].flag)
      && w.dirty == s.dirty && w.errors == s.errors && w.lost == s.lost
  {
  }

  lemma GatheredTokens(r: State, ps: seq<Id>, ts: seq<Tid>)
    requires |ps| == |ts| > 0 && ts[0] in r.toks && r.toks[ts[0]] == Token(ps[0], Has) && Refer(r, ps[1..], ts[1..])
    ensures Refer(r, ps, ts)
  {
    forall i: nat | i < |ts|
      ensures ts[i] in r.toks && r.toks[ts[i]] == Token(ps[i], Has)
    {
      if i > 0 {
        assert ts[1..][i - 1] == ts[i] && ps[1..][i - 1] == ps[i];
      }
    }
  }

  lemma GatherFlushing(s: State, r: State, m: Host, ps: seq<Id>, ts: seq<Tid>)
    requires Inv(s) && Inv(r) && Tame(s, m, {}) && |ps| == |ts| && Distinct(ts)
    requires (forall t: Tid :: t in ts ==> t !in s.toks)
    requires Gathered(s, r, ps, ts)
    requires forall p: Id :: p in ps ==> p in s.pages && s.pages[p].key.host == m
    requires forall p: Id :: p in Unclean(s, m) ==> p in ps
    ensures Flushing(r, m, Range(ts), ts, Has)
  {
    hide Inv, Contents, Distinct, Unclean;
    forall t: Tid | At(r, t) && t !in ts && PageOf(r, t).key.host == m
      ensures Idle(r.toks[t].phase)
    {
      assert At(s, t) && PageOf(s, t).key == PageOf(r, t).key;
    }
    forall p: Id | p in Unclean(r, m)
      ensures exists t: Tid :: t in ts && r.toks[t].page == p
    {
      UncleanWas(s, r, p, m);
      var i: nat :| i < |ps| && ps[i] == p;
      assert ts[i] in ts && r.toks[ts[i]].page == p;
    }
  }

  ghost function Range(ts: seq<Tid>): set<Tid> {
    set t | t in ts
  }

  ghost function ErrorOf(s: State, m: Host): Option<Error> {
    if m in s.errors then Some(s.errors[m]) else None
  }

  /** mapping_flush under the host's mutex, with any steps of other threads in between: no page of the host is dirty
      when it returns; and it reports success only if no earlier write of the host had failed and the backend now holds
      what the system held for each of the host's keys when the flush began. */
  lemma FlushDurable(s: State, m: Host, ts: seq<Tid>, gs: seq<Round>, w: seq<State>, r: State, out: Option<Error>)
    requires Inv(s) && Tame(s, m, {}) && (forall p: Id :: p in s.dirty ==> p in s.pages)
    requires |ts| == |PagesOf(s, m, s.dirty)| && Distinct(ts) && forall t: Tid :: t in ts ==> t !in s.toks
    requires (forall p: Id :: p in PagesOf(s, m, s.dirty) ==> p in s.pages)
    requires Flushes(Gather(s, PagesOf(s, m, s.dirty), ts), m, Range(ts), ts, gs, ErrorOf(s, m), w, r, out)
    ensures Inv(r) && Unclean(r, m) == {}
    ensures out.None? ==> m !in s.errors && forall k: Key :: k.host == m ==> r.disk(k) == Contents(s, k)
  {
    hide Inv, Contents, Distinct, Flushes, Gather;
    var ps, mine := PagesOf(s, m, s.dirty), Range(ts);
    var g := Gather(s, ps, ts);
    PagesOfFacts(s, m, s.dirty);
    GatherFacts(s, ps, ts);
    forall p: Id | p in Unclean(s, m)
      ensures p in ps
    {
      OnDirty(s, p);
    }
    GatherFlushing(s, g, m, ps, ts);
    FlushRuns(g, m, mine, ts, gs, ErrorOf(s, m), w, r, out);
    if out.None? {
      forall k: Key | k.host == m
        ensures r.disk(k) == Contents(s, k)
      {
        NotLost(s, k);
        FlushedKey(r, m, mine, k);
      }
    }
  }

  lemma NotLost(s: State, k: Key)
    requires Inv(s) && k.host !in s.errors
    ensures k !in s.lost
  {
  }

  /** When nothing is left to flush, the backend has what the system holds. */
  lemma FlushedKey(s: State, m: Host, mine: set<Tid>, k: Key)
    requires Flushing(s, m, mine, [], Has) && k.host == m && k !in s.lost
    ensures s.disk(k) == Contents(s, k)
  {
    if p: Id :| Serves(s, p, k) {
      assert s.pages[p].flag == Clean by { assert p !in Unclean(s, m); }
      ContentsAt(s, p, k);
      assert Ok(s, p);
      Untouched(s, m, mine, p);
    }
  }

  lemma Untouched(s: State, m: Host, mine: set<Tid>, p: Id)
    requires Flushing(s, m, mine, [], Has) && p in s.pages && s.pages[p].key.host == m
    ensures !LockedAs(s.pages[p], On(s, p), Locked(true))
  {
    hide Inv, Contents;
    forall t: Tid | t in On(s, p)
      ensures On(s, p)[t] != Locked(true)
    {
      assert At(s, t) && t !in mine;
    }
  }

  // ---------------------------------------------------------------------------------------------------------------
  // The assertion in mapping_make_room can fail
  // ---------------------------------------------------------------------------------------------------------------

  lemma {:induction false} RunsJoin(s: State, es: seq<Event>, w: State, fs: seq<Event>, r: State)
    requires Runs(s, es, w) && Runs(w, fs, r)
    ensures Runs(s, es + fs, r)
    decreases |es|
  {
    hide Enabled, Apply;
    if es == [] {
      assert es + fs == fs;
    } else {
      RunsJoin(Apply(s, es[0]), es[1..], w, fs, r);
      assert (es + fs)[1..] == es[1..] + fs;
    }
  }

  /** The page for index i of host 0, loaded and referred to by nobody. */
  ghost function Resting(s: State, i: nat): Page {
    Page(Key(0, i), s.disk(Key(0, i)), 1, true, Clean, true, None, None, false)
  }

  /** The cache holds the pages 0 up to n, in this order on the LRU list, and is otherwise at rest. */
  ghost predicate Filled(s: State, n: nat) {
    && s.pages == (map i: nat | i < n :: Resting(s, i)) && s.toks == map[] && s.nr == n
    && s.lru == seq(n, i => i)
  }

  lemma {:induction false} WithoutAbsent(xs: seq<Id>, p: Id)
    requires p !in xs
    ensures Without(xs, p) == xs
  {
    if xs != [] {
      WithoutAbsent(xs[1..], p);
    }
  }

  /** Finding one more page, loading it and dropping the reference. */
  function OneMore(n: nat): seq<Event> {
    [New(n, Key(0, n), n), Loaded(n), Put(n)]
  }

  lemma FillOne(s: State, n: nat) returns (r: State)
    requires Filled(s, n) && n < MAX
    ensures Runs(s, OneMore(n), r) && Filled(r, n + 1)
  {
    hide Runs, Without;
    var a := NewStep(s, n, Key(0, n), n);
    var b := LoadedStep(a, n);
    r := PutStep(b, n);
    FillCan(s, n);
    FillLoaded(s, n);
    FillPut(s, b, n);
    ThreeSteps(s, OneMore(n), a, b, r);
  }

  lemma FillCan(s: State, n: nat)
    requires Filled(s, n) && n < MAX
    ensures Enabled(s, New(n, Key(0, n), n))
  {
  }

  /** The new page after the backend's read. */
  lemma FillLoaded(s: State, n: nat)
    requires Filled(s, n) && n < MAX
    ensures At(NewStep(s, n, Key(0, n), n), n) && In(NewStep(s, n, Key(0, n), n), n, Loading)
    ensures LoadedStep(NewStep(s, n, Key(0, n), n), n)
         == s.(pages := s.pages[n := Resting(s, n).(refs := 2)], toks := map[n := Token(n, Has)], nr := n + 1)
  {
  }

  lemma FillPut(s: State, b: State, n: nat)
    requires Filled(s, n)
    requires b == s.(pages := s.pages[n := Resting(s, n).(refs := 2)], toks := map[n := Token(n, Has)], nr := n + 1)
    ensures In(b, n, Has) && Filled(PutStep(b, n), n + 1)
  {
    var r := PutStep(b, n);
    WithoutAbsent(s.lru, n);
    assert r.lru == s.lru + [n] == seq(n + 1, i => i);
    assert r.toks == map[];
    assert r.pages == map i: nat | i < n + 1 :: Resting(r, i);
  }

  lemma ThreeSteps(s: State, es: seq<Event>, a: State, b: State, r: State)
    requires |es| == 3 && Enabled(s, es[0]) && a == Apply(s, es[0]) && Enabled(a, es[1]) && b == Apply(a, es[1])
    requires Enabled(b, es[2]) && r == Apply(b, es[2])
    ensures Runs(s, es, r)
  {
    hide Enabled, Apply;
    assert es[1..][1..][1..] == [];
    assert Runs(b, es[1..][1..], r);
    assert Runs(a, es[1..], r);
  }

  lemma {:induction false} FillMore(s: State, n: nat) returns (es: seq<Event>, r: State)
    requires Start(s) && n <= MAX
    ensures Runs(s, es, r) && Filled(r, n)
    decreases n
  {
    if n == 0 {
      es, r := [], s;
      assert s.lru == seq(0, i => i);
    } else {
      var fs, w := FillMore(s, n - 1);
      r := FillOne(w, n - 1);
      es := fs + OneMore(n - 1);
      RunsJoin(s, fs, w, OneMore(n - 1), r);
    }
  }

  /** There is a run after which the next mapping_get of a page that is not cached fails the assertion: the cache is
      full, and a purge has pinned the first page on the LRU list but not yet taken it off. */
  lemma VictimBusy(s: State) returns (es: seq<Event>, r: State)
    requires Start(s)
    ensures Runs(s, es, r) && NotCached(r, Key(0, MAX)) && r.nr == MAX && |r.lru| > 0 && !VictimFree(r)
  {
    var fs, w := FillMore(s, MAX);
    r := PinStep(w, 0, 0);
    es := fs + [Pin(0, 0)];
    assert Enabled(w, Pin(0, 0));
    assert Runs(r, [Pin(0, 0)][1..], r);
    RunsJoin(s, fs, w, [Pin(0, 0)], r);
    assert r.lru[0] == 0 && r.pages[0].refs == 2;
  }

  // ---------------------------------------------------------------------------------------------------------------
  // The assertion in mapping_dirty
  // ---------------------------------------------------------------------------------------------------------------

  /** When a user who has a page's mutex calls mapping_dirty, its assertion holds exactly if the page has not been
      purged since the user got the reference. */
  lemma DirtyIff(s: State, es: seq<Event>, r: State, t: Tid)
    requires Start(s) && Runs(s, es, r) && At(r, t) && r.toks[t].phase.Locked?
    ensures PageOf(r, t).hashed <==> !PageOf(r, t).purged
  {
    StartOk(s);
    RunKeeps(s, es, r);
    hide Inv;
    TokenIs(r, t);
    PurgedIff(r, r.toks[t].page);
  }

  lemma PurgedIff(s: State, p: Id)
    requires Inv(s) && p in s.pages && s.pages[p].loaded
    ensures s.pages[p].hashed <==> !s.pages[p].purged
  {
    assert Ok(s, p);
  }

  /** And it can fail: a page is found, and purged by another thread before its user takes the page's mutex. */
  lemma DirtyDetached(s: State) returns (es: seq<Event>, r: State)
    requires Start(s)
    ensures Runs(s, es, r) && At(r, 0) && r.toks[0].phase.Locked? && !PageOf(r, 0).hashed
  {
    hide Runs, Enabled, Apply;
    var a, b, c := FoundAndPinned(s);
    var d := CutStep(c, 1);
    r := LockStep(d, 0);
    var fs, gs := [New(0, Key(0, 0), 0), Loaded(0), Pin(1, 0)], [Cut(1), Lock(0)];
    es := fs + gs;
    ThreeSteps(s, fs, a, b, c);
    CutAndLocked(c);
    TwoSteps(c, gs, d, r);
    RunsJoin(s, fs, c, gs, r);
  }

  /** A page that one thread has found and loaded, and another is about to discard. */
  lemma FoundAndPinned(s: State) returns (a: State, b: State, c: State)
    requires Start(s)
    ensures Enabled(s, New(0, Key(0, 0), 0)) && a == Apply(s, New(0, Key(0, 0), 0))
    ensures Enabled(a, Loaded(0)) && b == Apply(a, Loaded(0)) && Enabled(b, Pin(1, 0)) && c == Apply(b, Pin(1, 0))
    ensures In(c, 0, Has) && In(c, 1, Pinned) && c.toks[0].page == c.toks[1].page == 0 && c.pages[0].lock.None?
    ensures c.pages[0].hashed
  {
    a := NewStep(s, 0, Key(0, 0), 0);
    b := LoadedStep(a, 0);
    c := PinStep(b, 1, 0);
  }

  lemma CutAndLocked(c: State)
    requires In(c, 0, Has) && In(c, 1, Pinned) && c.toks[0].page == c.toks[1].page == 0 && c.pages[0].lock.None?
    requires c.pages[0].hashed
    ensures Enabled(c, Cut(1)) && At(CutStep(c, 1), 0) && Enabled(CutStep(c, 1), Lock(0))
    ensures var r := LockStep(CutStep(c, 1), 0); At(r, 0) && r.toks[0].phase.Locked? && !PageOf(r, 0).hashed
    ensures Apply(c, Cut(1)) == CutStep(c, 1) && Apply(CutStep(c, 1), Lock(0)) == LockStep(CutStep(c, 1), 0)
  {
    hide Without;
  }

  lemma TwoSteps(s: State, es: seq<Event>, a: State, r: State)
    requires |es| == 2 && Enabled(s, es[0]) && a == Apply(s, es[0]) && Enabled(a, es[1]) && r == Apply(a, es[1])
    ensures Runs(s, es, r)
  {
    hide Enabled, Apply;
    assert es[1..][1..] == [];
    assert Runs(a, es[1..], r);
  }

  // ---------------------------------------------------------------------------------------------------------------
  // The mutexes of the hosts
  // ---------------------------------------------------------------------------------------------------------------

  type Task = nat

  /** The cache together with the hosts that have a mutex, who holds it, and whose each token is. */
  datatype System = System(cache: State, guarded: set<Host>, owner: map<Host, Task>, whose: map<Tid, Task>)

  /** A task takes or drops the mutex of a host, or takes a step in the cache. */
  datatype Action = Take(w: Task, m: Host) | Drop(w: Task, m: Host) | Do(w: Task, e: Event)

  /** The host whose mutex the source wants held for the step. */
  ghost function Needs(s: State, e: Event): Option<Host>
    requires Enabled(s, e)
  {
    match e
    case Hit(_, p) => Some(s.pages[p].key.host)
    case Pin(_, p) => Some(s.pages[p].key.host)
    case New(_, key, _) => Some(key.host)
    case Release(_) => None
    case Pick(_, _) => None
    case Put(_) => None
    case Lock(_) => None
    case Unlock(t) => if s.toks[t].phase.touched then Some(PageOf(s, t).key.host) else None
    case _ => Some(PageOf(s, e.t).key.host)
  }

  /** A task gives up a mutex only between operations: none of its tokens is in the middle of one on that host. */
  ghost predicate Between(y: System, w: Task, m: Host) {
    forall t: Tid :: At(y.cache, t) && t in y.whose && y.whose[t] == w && PageOf(y.cache, t).key.host == m ==>
      Idle(y.cache.toks[t].phase)
  }

  ghost predicate Allowed(y: System, a: Action) {
    match a
    case Take(_, m) => m in y.guarded && m !in y.owner
    case Drop(w, m) => m in y.owner && y.owner[m] == w && Between(y, w, m)
    case Do(w, e) =>
      && Enabled(y.cache, e)
      && (!e.Release? && e.t in y.cache.toks ==> e.t in y.whose && y.whose[e.t] == w)
      && (Needs(y.cache, e).Some? && Needs(y.cache, e).value in y.guarded ==>
            Needs(y.cache, e).value in y.owner && y.owner[Needs(y.cache, e).value] == w)
  }

  ghost function Act(y: System, a: Action): System
    requires Allowed(y, a)
  {
    match a
    case Take(w, m) => y.(owner := y.owner[m := w])
    case Drop(w, m) => y.(owner := y.owner - {m})
    case Do(w, e) =>
      y.(cache := Apply(y.cache, e), whose := if e.Release? then y.whose else y.whose[e.t := w])
  }

  /** Whoever is in the middle of an operation on a guarded host has its mutex. */
  ghost predicate BusyOwns(y: System) {
    forall t: Tid :: At(y.cache, t) ==>
      && t in y.whose
      && (PageOf(y.cache, t).key.host in y.guarded && !Idle(y.cache.toks[t].phase) ==>
            PageOf(y.cache, t).key.host in y.owner && y.owner[PageOf(y.cache, t).key.host] == y.whose[t])
  }

  ghost predicate Orderly(y: System) {
    Inv(y.cache) && BusyOwns(y)
  }

  /** A step changes no token but its own. */
  ghost predicate OwnToken(s: State, r: State, t: Tid) {
    forall x: Tid :: x != t && At(r, x) ==> At(s, x) && r.toks[x] == s.toks[x] && PageOf(r, x).key == PageOf(s, x).key
  }

  lemma StepToken(s: State, e: Event)
    requires Inv(s) && Enabled(s, e) && !e.Release?
    ensures OwnToken(s, Apply(s, e), e.t)
  {
    TokensIn(s);
    hide Inv, OwnToken, NewStep, PutStep;
    if e.New? {
      NewToken(s, e.t, e.key, e.p);
    } else if e.Put? {
      PutToken(s, e.t);
    } else {
      OneToken(s, e);
    }
  }

  lemma OneToken(s: State, e: Event)
    requires Enabled(s, e) && !e.Release? && !e.New? && !e.Put?
    ensures OwnToken(s, Apply(s, e), e.t)
  {
    hide OwnToken, Without, NewStep, PutStep;
    var r := Apply(s, e);
    if e.Hit? || e.Pin? || e.Pick? {
      EditToken(s, r, e.p, r.pages[e.p], e.t, r.toks[e.t].phase);
    } else {
      EditToken(s, r, s.toks[e.t].page, r.pages[s.toks[e.t].page], e.t, r.toks[e.t].phase);
    }
  }

  lemma EditToken(s: State, r: State, p: Id, pg: Page, t: Tid, ph: Phase)
    requires Edited(s, r, p, pg, t, Some(ph))
    ensures OwnToken(s, r, t)
  {
  }

  lemma PutToken(s: State, t: Tid)
    requires At(s, t)
    ensures OwnToken(s, PutStep(s, t), t)
  {
    hide PutStep;
    PutPages(s, t);
  }

  lemma NewToken(s: State, t: Tid, key: Key, p: Id)
    requires TokensOk(s) && Enabled(s, New(t, key, p))
    ensures OwnToken(s, NewStep(s, t, key, p), t)
  {
  }

  /** The phase that a step leaves its token in is idle, or the step needs the mutex. */
  lemma StepPhase(s: State, e: Event)
    requires Inv(s) && Enabled(s, e) && !e.Release? && At(Apply(s, e), e.t)
    ensures Idle(Apply(s, e).toks[e.t].phase) ||
            Needs(s, e) == Some(PageOf(Apply(s, e), e.t).key.host)
  {
    hide Inv, Without;
  }

  lemma ActKeeps(y: System, a: Action)
    requires Orderly(y) && Allowed(y, a)
    ensures Orderly(Act(y, a))
  {
    hide Inv, Apply, Enabled;
    if a.Do? {
      StepKeeps(y.cache, a.e);
      if a.e.Release? {
        ReleaseOwns(y, a);
      } else {
        DoOwns(y, a);
      }
    }
  }

  lemma ReleaseOwns(y: System, a: Action)
    requires BusyOwns(y) && Allowed(y, a) && a.Do? && a.e.Release?
    ensures BusyOwns(Act(y, a))
  {
    var s, r := y.cache, Act(y, a).cache;
    assert forall t: Tid :: At(r, t) ==> At(s, t) && PageOf(r, t) == PageOf(s, t);
  }

  lemma DoOwns(y: System, a: Action)
    requires Inv(y.cache) && BusyOwns(y) && Allowed(y, a) && a.Do? && !a.e.Release?
    ensures BusyOwns(Act(y, a))
  {
    hide Inv, Apply, Enabled, Needs;
    var s, z := y.cache, Act(y, a);
    StepToken(s, a.e);
    forall t: Tid | At(z.cache, t)
      ensures t in z.whose
      ensures PageOf(z.cache, t).key.host in z.guarded && !Idle(z.cache.toks[t].phase) ==>
                PageOf(z.cache, t).key.host in z.owner && z.owner[PageOf(z.cache, t).key.host] == z.whose[t]
    {
      if t == a.e.t {
        StepPhase(s, a.e);
      }
    }
  }

  ghost predicate Acts(y: System, acts: seq<Action>, z: System)
    decreases |acts|
  {
    if acts == [] then z == y else Allowed(y, acts[0]) && Acts(Act(y, acts[0]), acts[1..], z)
  }

  lemma {:induction false} ActsKeep(y: System, acts: seq<Action>, z: System)
    requires Orderly(y) && Acts(y, acts, z)
    ensures Orderly(z) && z.guarded == y.guarded
    decreases |acts|
  {
    hide Orderly, Allowed, Act;
    if acts != [] {
      ActKeeps(y, acts[0]);
      SameGuards(y, acts[0]);
      ActsKeep(Act(y, acts[0]), acts[1..], z);
    }
  }

  lemma SameGuards(y: System, a: Action)
    requires Allowed(y, a)
    ensures Act(y, a).guarded == y.guarded
  {
  }

  /** Nobody has a mutex or a reference yet. */
  ghost predicate Booted(y: System) {
    Start(y.cache) && y.owner == map[] && y.whose == map[]
  }

  /** In every run in which tasks use the mutexes this way: to one that has the mutex of a host and is between
      operations, nobody is in the middle of an operation on a page of that host. */
  lemma TameUnderMutex(y: System, acts: seq<Action>, z: System, w: Task, m: Host)
    requires Booted(y) && Acts(y, acts, z)
    requires m in y.guarded && m in z.owner && z.owner[m] == w && Between(z, w, m)
    ensures Inv(z.cache) && Tame(z.cache, m, {})
  {
    StartOk(y.cache);
    ActsKeep(y, acts, z);
  }

  /** And what another task does then is what FlushDurable takes others to do, if its new references are not mistaken
      for those of the flush. */
  lemma OthersUnderMutex(z: System, a: Action, w: Task, m: Host, mine: set<Tid>)
    requires Orderly(z) && Allowed(z, a) && a.Do? && a.w != w
    requires m in z.guarded && m in z.owner && z.owner[m] == w
    requires !a.e.Release? ==> a.e.t !in mine
    ensures Other(z.cache, a.e, m, mine)
  {
    hide Inv;
  }

  /** So a flush by the holder of the mutex in any such run keeps its promise. */
  lemma FlushUnderMutex(y: System, acts: seq<Action>, z: System, w: Task, m: Host, ts: seq<Tid>, gs: seq<Round>,
                        ws: seq<State>, r: State, out: Option<Error>)
    requires Booted(y) && Acts(y, acts, z)
    requires m in y.guarded && m in z.owner && z.owner[m] == w && Between(z, w, m)
    requires forall p: Id :: p in z.cache.dirty ==> p in z.cache.pages
    requires |ts| == |PagesOf(z.cache, m, z.cache.dirty)| && Distinct(ts) && forall t: Tid :: t in ts ==>
               t !in z.cache.toks
    requires forall p: Id :: p in PagesOf(z.cache, m, z.cache.dirty) ==> p in z.cache.pages
    requires Flushes(Gather(z.cache, PagesOf(z.cache, m, z.cache.dirty), ts), m, Range(ts), ts, gs, ErrorOf(z.cache, m),
                     ws, r, out)
    ensures Unclean(r, m) == {}
    ensures out.None? ==>
              m !in z.cache.errors && forall k: Key :: k.host == m ==> r.disk(k) == Contents(z.cache, k)
  {
    hide Inv, Contents, Distinct, Flushes, Gather;
    TameUnderMutex(y, acts, z, w, m);
    FlushDurable(z.cache, m, ts, gs, ws, r, out);
  }

  /** The flush as actions of one task among those of the others: it has begun to write the first page of todo, it has
      written it or found that it need not, or neither. */
  datatype Stage = Next | Busy | Done

  function PhaseIn(st: Stage): Phase {
    if st == Busy then Writing else Has
  }

  /** An action that is not one of the flush's: another task's, or the return of a hold. */
  ghost predicate Foreign(a: Action, w: Task, mine: set<Tid>) {
    (a.Do? && a.e.Release?) || (a.w != w && (a.Do? ==> a.e.t !in mine))
  }

  /** From z to x the system makes the run `acts`, in which w flushes the pages of todo, one after the other: it writes
      back a page that it finds dirty with the page's mutex free, and drops its reference. It returns `out`. */
  ghost predicate FlushRun(z: System, acts: seq<Action>, w: Task, mine: set<Tid>, todo: seq<Tid>, st: Stage,
                           ret: Option<Error>, x: System, out: Option<Error>)
    decreases |acts|, if st == Next then 1 else 0
  {
    if todo == [] then acts == [] && x == z && out == ret
    else
      var t := todo[0];
      || (st == Next && In(z.cache, t, Has) && Free(z.cache, t) && PageOf(z.cache, t).flag != Dirty
          && FlushRun(z, acts, w, mine, todo, Done, ret, x, out))
      || (acts != [] && Allowed(z, acts[0]) &&
          var a, y, rest := acts[0], Act(z, acts[0]), acts[1..];
          || (Foreign(a, w, mine) && FlushRun(y, rest, w, mine, todo, st, ret, x, out))
          || (st == Next && a == Do(w, Begin(t)) && FlushRun(y, rest, w, mine, todo, Busy, ret, x, out))
          || (st == Busy && a.Do? && a.e.End? && a == Do(w, End(t, a.e.err, a.e.bad))
              && FlushRun(y, rest, w, mine, todo, Done, if ret.None? then a.e.err else ret, x, out))
          || (st == Done && a == Do(w, Put(t)) && FlushRun(y, rest, w, mine, todo[1..], Next, ret, x, out)))
  }

  /** w has the mutex of m, and its flush has got this far. */
  ghost predicate MidFlush(z: System, w: Task, m: Host, mine: set<Tid>, todo: seq<Tid>, st: Stage) {
    && Orderly(z) && m in z.guarded && m in z.owner && z.owner[m] == w
    && Flushing(z.cache, m, mine, todo, PhaseIn(st))
    && (st == Done && todo != [] ==> At(z.cache, todo[0]) && PageOf(z.cache, todo[0]).flag == Clean)
  }

  lemma OwnerStays(z: System, a: Action, w: Task, m: Host)
    requires Allowed(z, a) && m in z.owner && z.owner[m] == w && a != Drop(w, m)
    ensures m in Act(z, a).owner && Act(z, a).owner[m] == w && Act(z, a).guarded == z.guarded
    ensures !a.Do? ==> Act(z, a).cache == z.cache
    ensures a.Do? ==> Enabled(z.cache, a.e) && Act(z, a).cache == Apply(z.cache, a.e)
  {
    hide Apply, Enabled, Needs;
  }

  lemma ForeignFlush(z: System, a: Action, w: Task, m: Host, mine: set<Tid>, todo: seq<Tid>, st: Stage)
    requires MidFlush(z, w, m, mine, todo, st) && todo != [] && Allowed(z, a) && Foreign(a, w, mine)
    ensures MidFlush(Act(z, a), w, m, mine, todo, st) && Intact(z.cache, Act(z, a).cache, m)
  {
    hide Orderly, Allowed, Act, Flushing, Intact, Other, OthersCan, OthersDo, Quiet, Enabled, Apply;
    ActKeeps(z, a);
    OwnerStays(z, a, w, m);
    if a.Do? {
      var es := [a.e];
      ForeignOther(z, a, w, m, mine);
      OneOther(z.cache, a.e, m, mine);
      OthersFlushing(z.cache, es, m, mine, todo, PhaseIn(st));
      if st == Done {
        FirstAt(z.cache, m, mine, todo, Has);
        CleanStays(z.cache, Act(z, a).cache, m, mine, todo[0]);
      }
    } else {
      IntactSame(z.cache, m);
    }
  }

  lemma ForeignOther(z: System, a: Action, w: Task, m: Host, mine: set<Tid>)
    requires Orderly(z) && Allowed(z, a) && a.Do? && Foreign(a, w, mine) && m in z.guarded && m in z.owner
    requires z.owner[m] == w
    ensures Enabled(z.cache, a.e) && Other(z.cache, a.e, m, mine)
  {
    if !a.e.Release? {
      hide Orderly, Allowed, Other;
      OthersUnderMutex(z, a, w, m, mine);
    }
  }

  lemma OneOther(s: State, e: Event, m: Host, mine: set<Tid>)
    requires Enabled(s, e) && Other(s, e, m, mine)
    ensures OthersCan(s, [e], m, mine) && OthersDo(s, [e], m, mine) == Apply(s, e)
  {
    hide Enabled, Apply, Other;
    assert [e][1..] == [];
  }

  /** The flush takes a step of its own: it begins to write a page, ends, or drops its reference. */
  lemma OwnFlush(z: System, a: Action, w: Task, m: Host, mine: set<Tid>, todo: seq<Tid>, st: Stage)
    requires MidFlush(z, w, m, mine, todo, st) && todo != [] && Allowed(z, a) && a.Do? && a.w == w
    requires (st == Next && a.e == Begin(todo[0])) || (st == Done && a.e == Put(todo[0]))
             || (st == Busy && a.e.End? && a.e.t == todo[0])
    ensures st == Next ==> MidFlush(Act(z, a), w, m, mine, todo, Busy)
    ensures st == Busy ==> MidFlush(Act(z, a), w, m, mine, todo, Done)
    ensures st == Done ==> MidFlush(Act(z, a), w, m, mine, todo[1..], Next)
    ensures (st == Busy && a.e.err.Some?) || Intact(z.cache, Act(z, a).cache, m)
  {
    hide Orderly, Allowed, Act, Flushing, Intact, BeginStep, EndStep, PutStep;
    ActKeeps(z, a);
    OwnerStays(z, a, w, m);
    FirstAt(z.cache, m, mine, todo, PhaseIn(st));
    assert todo[0] in todo;
    if st == Next {
      BeginFlushing(z.cache, m, mine, todo);
    } else if st == Busy {
      EndFlushing(z.cache, m, mine, todo, a.e.err, a.e.bad);
      FirstAt(Act(z, a).cache, m, mine, todo, Has);
    } else {
      PutFlushing(z.cache, m, mine, todo);
    }
  }

  lemma {:induction false} FlushActs(z: System, acts: seq<Action>, w: Task, m: Host, mine: set<Tid>, todo: seq<Tid>,
                                     st: Stage, ret: Option<Error>, x: System, out: Option<Error>)
    requires MidFlush(z, w, m, mine, todo, st) && FlushRun(z, acts, w, mine, todo, st, ret, x, out)
    ensures Acts(z, acts, x) && Orderly(x) && Flushing(x.cache, m, mine, [], Has)
    ensures ret.Some? ==> out.Some?
    ensures out.None? ==> Intact(z.cache, x.cache, m)
    decreases |acts|, if st == Next then 1 else 0
  {
    hide MidFlush, Orderly, Flushing, Intact, Allowed, Act, Foreign;
    if todo == [] {
      FlushedAll(z, w, m, mine, st);
      IntactSame(z.cache, m);
    } else if st == Next && In(z.cache, todo[0], Has) && Free(z.cache, todo[0])
              && PageOf(z.cache, todo[0]).flag != Dirty && FlushRun(z, acts, w, mine, todo, Done, ret, x, out) {
      NotDirty(z, w, m, mine, todo);
      FlushActs(z, acts, w, m, mine, todo, Done, ret, x, out);
    } else {
      var a, y, rest := acts[0], Act(z, acts[0]), acts[1..];
      if Foreign(a, w, mine) && FlushRun(y, rest, w, mine, todo, st, ret, x, out) {
        ForeignFlush(z, a, w, m, mine, todo, st);
        FlushActs(y, rest, w, m, mine, todo, st, ret, x, out);
      } else {
        OwnFlush(z, a, w, m, mine, todo, st);
        var now := if st == Done then todo[1..] else todo;
        var then_ := if st == Next then Busy else if st == Busy then Done else Next;
        var err := if st == Busy && ret.None? then a.e.err else ret;
        FlushActs(y, rest, w, m, mine, now, then_, err, x, out);
      }
      if out.None? { IntactThen(z.cache, y.cache, x.cache, m); }
    }
  }

  lemma FlushedAll(z: System, w: Task, m: Host, mine: set<Tid>, st: Stage)
    requires MidFlush(z, w, m, mine, [], st)
    ensures Orderly(z) && Flushing(z.cache, m, mine, [], Has)
  {
  }

  /** A page whose mutex is free is not being written back. */
  lemma NotDirty(z: System, w: Task, m: Host, mine: set<Tid>, todo: seq<Tid>)
    requires MidFlush(z, w, m, mine, todo, Next) && todo != [] && In(z.cache, todo[0], Has) && Free(z.cache, todo[0])
    requires PageOf(z.cache, todo[0]).flag != Dirty
    ensures MidFlush(z, w, m, mine, todo, Done)
  {
    hide Inv, BusyOwns, Tame, Unclean;
    CutFlag(z.cache, todo[0]);
  }

  /** mapping_collect as actions. */
  function Picks(w: Task, ps: seq<Id>, ts: seq<Tid>): seq<Action>
    requires |ps| == |ts|
  {
    if ps == [] then [] else [Do(w, Pick(ts[0], ps[0]))] + Picks(w, ps[1..], ts[1..])
  }

  lemma PickAct(z: System, w: Task, p: Id, t: Tid)
    requires Allowed(z, Do(w, Pick(t, p)))
    ensures p in z.cache.pages && Act(z, Do(w, Pick(t, p))).cache == PickStep(z.cache, t, p)
  {
    hide PickStep, Needs;
  }

  lemma GatherFirst(s: State, w: State, ps: seq<Id>, ts: seq<Tid>)
    requires |ps| == |ts| > 0 && ps[0] in s.pages && w == PickStep(s, ts[0], ps[0]) && w.pages.Keys == s.pages.Keys
    requires forall p: Id :: p in ps[1..] ==> p in w.pages
    ensures (forall p: Id :: p in ps ==> p in s.pages) && Gather(s, ps, ts) == Gather(w, ps[1..], ts[1..])
  {
    hide PickStep;
    assert ps == [ps[0]] + ps[1..];
    assert forall p: Id :: p in ps ==> p == ps[0] || p in ps[1..];
  }

  lemma {:induction false} PicksGather(z: System, w: Task, m: Host, ps: seq<Id>, ts: seq<Tid>, g: System)
    requires |ps| == |ts| && Acts(z, Picks(w, ps, ts), g) && m in z.owner && z.owner[m] == w
    ensures (forall p: Id :: p in ps ==> p in z.cache.pages) && g.cache == Gather(z.cache, ps, ts)
    ensures m in g.owner && g.owner[m] == w
    decreases |ps|
  {
    if ps != [] {
      hide PickStep, Allowed, Act;
      var a := Do(w, Pick(ts[0], ps[0]));
      var acts := Picks(w, ps, ts);
      assert acts[0] == a && acts[1..] == Picks(w, ps[1..], ts[1..]);
      PickAct(z, w, ps[0], ts[0]);
      OwnerStays(z, a, w, m);
      PickFacts(z.cache, ts[0], ps[0]);
      var y := Act(z, a);
      PicksGather(y, w, m, ps[1..], ts[1..], g);
      hide Acts, Picks;
      GatherFirst(z.cache, y.cache, ps, ts);
    }
  }

  lemma {:induction false} ActsJoin(y: System, acts: seq<Action>, z: System, more: seq<Action>, x: System)
    requires Acts(y, acts, z) && Acts(z, more, x)
    ensures Acts(y, acts + more, x)
    decreases |acts|
  {
    hide Allowed, Act;
    if acts == [] {
      assert acts + more == more;
    } else {
      ActsJoin(Act(y, acts[0]), acts[1..], z, more, x);
      assert (acts + more)[0] == acts[0] && (acts + more)[1..] == acts[1..] + more;
    }
  }

  /** A flush is a part of one run of the whole system, in which all tasks take the mutexes as the source wants: w takes
      the mutex of m and is between operations when it begins, collects the dirty pages, and flushes them while the
      others act as they like. No page of m is dirty when it returns; and it reports success only if no earlier write
      of m had failed and the backend now holds what the system held for each key of m when the flush began. */
  lemma FlushInRun(y: System, acts: seq<Action>, z: System, w: Task, m: Host, ts: seq<Tid>, g: System,
                   more: seq<Action>, x: System, out: Option<Error>)
    requires Booted(y) && Acts(y, acts, z)
    requires m in y.guarded && m in z.owner && z.owner[m] == w && Between(z, w, m)
    requires forall p: Id :: p in z.cache.dirty ==> p in z.cache.pages
    requires var ps := PagesOf(z.cache, m, z.cache.dirty);
      |ts| == |ps| && Distinct(ts) && (forall t: Tid :: t in ts ==> t !in z.cache.toks) && Acts(z, Picks(w, ps, ts), g)
    requires FlushRun(g, more, w, Range(ts), ts, Next, ErrorOf(z.cache, m), x, out)
    ensures Acts(y, acts + Picks(w, PagesOf(z.cache, m, z.cache.dirty), ts) + more, x)
    ensures Unclean(x.cache, m) == {}
    ensures out.None? ==>
              m !in z.cache.errors && forall k: Key :: k.host == m ==> x.cache.disk(k) == Contents(z.cache, k)
  {
    hide Inv, Contents, Distinct, FlushRun, Gather, Acts, Picks, PagesOf, Tame;
    var s, ps := z.cache, PagesOf(z.cache, m, z.cache.dirty);
    TameUnderMutex(y, acts, z, w, m);
    PagesOfFacts(s, m, s.dirty);
    PicksGather(z, w, m, ps, ts, g);
    GatherFacts(s, ps, ts);
    forall p: Id | p in Unclean(s, m)
      ensures p in ps
    {
      OnDirty(s, p);
    }
    GatherFlushing(s, g.cache, m, ps, ts);
    ActsJoin(y, acts, z, Picks(w, ps, ts), g);
    StartedOrderly(y, acts + Picks(w, ps, ts), g);
    hide Orderly, Booted, Between, Flushing;
    FlushActs(g, more, w, m, Range(ts), ts, Next, ErrorOf(s, m), x, out);
    ActsJoin(y, acts + Picks(w, ps, ts), g, more, x);
    NothingLeft(x.cache, m, Range(ts));
    if out.None? {
      forall k: Key | k.host == m
        ensures x.cache.disk(k) == Contents(s, k)
      {
        NotLost(s, k);
        FlushedKey(x.cache, m, Range(ts), k);
      }
    }
  }

  lemma StartedOrderly(y: System, acts: seq<Action>, z: System)
    requires Booted(y) && Acts(y, acts, z)
    ensures Orderly(z) && z.guarded == y.guarded
  {
    StartOk(y.cache);
    ActsKeep(y, acts, z);
  }

  lemma NothingLeft(s: State, m: Host, mine: set<Tid>)
    requires Flushing(s, m, mine, [], Has)
    ensures Unclean(s, m) == {}
  {
    hide Unclean, Inv, Tame;
    assert forall p: Id :: p !in Unclean(s, m);
  }

  // ---------------------------------------------------------------------------------------------------------------
  // The assertion in mapping_dirty, under the mutex
  // ---------------------------------------------------------------------------------------------------------------

  /** The task has the mutex of m, and its token t refers to a page of m that can be found. */
  ghost predicate Kept(y: System, w: Task, m: Host, t: Tid) {
    && m in y.guarded && m in y.owner && y.owner[m] == w
    && At(y.cache, t) && t in y.whose && y.whose[t] == w
    && PageOf(y.cache, t).key.host == m && PageOf(y.cache, t).hashed
  }

  /** The task itself ends this: it drops the mutex or the reference, or discards the page. */
  ghost predicate Ends(y: System, a: Action, w: Task, m: Host, t: Tid)
    requires Allowed(y, a) && At(y.cache, t)
  {
    || a == Drop(w, m) || a == Do(w, Put(t))
    || (a.Do? && a.w == w && (a.e.Cut? || a.e.Failed?) && y.cache.toks[a.e.t].page == y.cache.toks[t].page)
  }

  /** The token t refers to the same page as before, which can still be found. */
  ghost predicate FoundStill(s: State, r: State, t: Tid)
    requires At(s, t)
  {
    At(r, t) && PageOf(r, t).key == PageOf(s, t).key && PageOf(r, t).hashed
  }

  /** A page stays in the hash table while it is referred to, unless a purge or a failed load takes it out. */
  lemma StepFound(s: State, e: Event, r: State, t: Tid)
    requires Inv(s) && Enabled(s, e) && r == Apply(s, e) && At(s, t) && PageOf(s, t).hashed && e != Put(t)
    requires e.Cut? || e.Failed? ==> s.toks[e.t].page != s.toks[t].page
    ensures FoundStill(s, r, t)
  {
    hide Inv, FoundStill;
    if e.New? {
      NewFound(s, e.t, e.key, e.p, t);
    } else if e.Put? {
      PutFound(s, e.t, r, t);
    } else if e.Release? {
      ReleaseFound(s, e.m, t);
    } else {
      EditFound(s, e, r, t);
    }
  }

  lemma EditFound(s: State, e: Event, r: State, t: Tid)
    requires Enabled(s, e) && r == Apply(s, e) && At(s, t) && PageOf(s, t).hashed && !e.Put? && !e.New? && !e.Release?
    requires e.Cut? || e.Failed? ==> s.toks[e.t].page != s.toks[t].page
    ensures FoundStill(s, r, t)
  {
    hide NewStep, PutStep, Without, Bump, Store, FoundStill;
    var p := if e.Hit? || e.Pin? || e.Pick? then e.p else s.toks[e.t].page;
    EditedFound(s, r, p, r.pages[p], e.t, r.toks[e.t].phase, t);
  }

  lemma ReleaseFound(s: State, m: Host, t: Tid)
    requires At(s, t) && PageOf(s, t).hashed
    ensures FoundStill(s, ReleaseStep(s, m), t)
  {
  }

  lemma EditedFound(s: State, r: State, p: Id, pg: Page, x: Tid, ph: Phase, t: Tid)
    requires Edited(s, r, p, pg, x, Some(ph)) && At(s, t) && PageOf(s, t).hashed
    requires s.toks[t].page == p ==> pg.hashed
    ensures FoundStill(s, r, t)
  {
  }

  lemma NewFound(s: State, x: Tid, key: Key, p: Id, t: Tid)
    requires Inv(s) && Enabled(s, New(x, key, p)) && At(s, t) && PageOf(s, t).hashed
    ensures FoundStill(s, NewStep(s, x, key, p), t)
  {
    hide Inv;
    if s.nr >= MAX {
      EvictFacts(s, MakeRoom(s), s.lru[0]);
    }
  }

  lemma PutFound(s: State, x: Tid, r: State, t: Tid)
    requires Inv(s) && At(s, x) && r == PutStep(s, x) && At(s, t) && PageOf(s, t).hashed && x != t
    ensures FoundStill(s, r, t)
  {
    hide Inv, Without;
    TokenIs(s, x);
  }

  lemma ActFound(y: System, a: Action, w: Task, m: Host, t: Tid)
    requires Orderly(y) && Kept(y, w, m, t) && Allowed(y, a) && !Ends(y, a, w, m, t)
    ensures Kept(Act(y, a), w, m, t)
  {
    hide Inv, BusyOwns, Apply, Enabled;
    OwnerStays(y, a, w, m);
    if a.Do? {
      NotByOthers(y, a, w, m, t);
      StepFound(y.cache, a.e, Act(y, a).cache, t);
    }
  }

  /** Others can neither discard the page nor be loading it, and they do not have the token. */
  lemma NotByOthers(y: System, a: Action, w: Task, m: Host, t: Tid)
    requires Kept(y, w, m, t) && Allowed(y, a) && a.Do? && !Ends(y, a, w, m, t)
    ensures a.e != Put(t) && (a.e.Cut? || a.e.Failed? ==> y.cache.toks[a.e.t].page != y.cache.toks[t].page)
    ensures !a.e.Release? && a.e.t == t ==> a.w == w
  {
  }

  /** In the run the task does not end it. */
  ghost predicate KeptUp(y: System, acts: seq<Action>, w: Task, m: Host, t: Tid)
    decreases |acts|
  {
    acts == [] || (Allowed(y, acts[0]) && At(y.cache, t) && !Ends(y, acts[0], w, m, t)
                   && KeptUp(Act(y, acts[0]), acts[1..], w, m, t))
  }

  lemma {:induction false} StillFound(y: System, acts: seq<Action>, z: System, w: Task, m: Host, t: Tid)
    requires Orderly(y) && Kept(y, w, m, t) && Acts(y, acts, z) && KeptUp(y, acts, w, m, t)
    ensures Kept(z, w, m, t)
    decreases |acts|
  {
    hide Orderly, Kept, Allowed, Act, Ends;
    if acts != [] {
      ActKeeps(y, acts[0]);
      ActFound(y, acts[0], w, m, t);
      StillFound(Act(y, acts[0]), acts[1..], z, w, m, t);
    }
  }

  /** A task that gets a reference to a page of a guarded host has the mutex, and the page can be found. */
  lemma GotFound(y: System, w: Task, e: Event, m: Host)
    requires Orderly(y) && Allowed(y, Do(w, e)) && m in y.guarded
    requires (e.Hit? && y.cache.pages[e.p].key.host == m) || (e.New? && e.key.host == m)
    ensures Kept(Act(y, Do(w, e)), w, m, e.t)
  {
    hide Inv, BusyOwns;
  }

  /** Whatever the other tasks do: if a task holds the host's mutex from the time it gets a reference to a page, and has
      neither dropped the reference nor discarded the page, then the page can be found when the task has the page's
      mutex, so the assertion in mapping_dirty holds. */
  lemma DirtyUnderMutex(y: System, acts: seq<Action>, z: System, w: Task, e: Event, m: Host, more: seq<Action>,
                        x: System)
    requires Booted(y) && Acts(y, acts, z) && Allowed(z, Do(w, e)) && m in y.guarded
    requires (e.Hit? && z.cache.pages[e.p].key.host == m) || (e.New? && e.key.host == m)
    requires Acts(Act(z, Do(w, e)), more, x) && KeptUp(Act(z, Do(w, e)), more, w, m, e.t)
    ensures At(x.cache, e.t) && PageOf(x.cache, e.t).hashed
    ensures x.cache.toks[e.t].phase.Locked? ==> Enabled(x.cache, Mark(e.t))
  {
    hide Orderly, Allowed, Act, KeptUp, Acts, Booted;
    StartedOrderly(y, acts, z);
    GotFound(z, w, e, m);
    ActKeeps(z, Do(w, e));
    StillFound(Act(z, Do(w, e)), more, x, w, m, e.t);
  }
}
