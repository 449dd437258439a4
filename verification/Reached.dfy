/** The conditions under which a guest is orphaned, its applied image is wrong, or
    another container is taken for it do come about: runs that lead there from a new
    object on an empty host. */
module Reached {
  import opened Wrappers
  import opened ContainerHost
  import opened Containers
  import opened Text
  import opened OciNaming
  import opened Coherence
  import opened Lifecycle
  import opened Replacement
  import opened RightGuest
  import opened ContainerPass

  /** A new object that wants `image`, on a host without containers. */
  function Fresh(image: Image): State {
    State(World(map[], map[]), Some(Obj(0, image, NO_IMAGE, false, false, false, false)), map[], false, Idle)
  }

  /** A run from a new object in which nothing out of order or dishonest happened. */
  ghost predicate GoodRun(site: Site, image: Image, ss: seq<State>, ls: seq<Label>) {
    && IsPath(site, ss, ls) && IsOrderly(site, ss, ls) && IsHonest(site, ss, ls)
    && ss[0] == Fresh(image) && Init(site, ss[0])
  }

  lemma Grown(site: Site, image: Image, ss: seq<State>, ls: seq<Label>, l: Label, t: State)
    returns (ss': seq<State>, ls': seq<Label>)
    requires GoodRun(site, image, ss, ls)
    requires Next(site, ss[|ls|], l, t) && Orderly(site, ss[|ls|], l, t) && Honest(site, ss[|ls|], l)
    ensures GoodRun(site, image, ss', ls') && ss'[|ls'|] == t
  {
    ss', ls' := ExtendedHonestly(site, ss, ls, l, t);
  }

  /** The same for a step of others on the host, which leaves the object alone. */
  lemma GrownOutside(site: Site, image: Image, ss: seq<State>, ls: seq<Label>, op: Op, w: World)
    returns (ss': seq<State>, ls': seq<Label>)
    requires GoodRun(site, image, ss, ls) && Took(ss[|ls|].base, op, w) && !op.Restart? && !op.Change?
    requires UniqueName(w.cts, site.node, site.name)
    ensures GoodRun(site, image, ss', ls')
    ensures ss'[|ls'|] == ss[|ls|].(base := w, madeFor := Forget(site, ss[|ls|].madeFor, op))
  {
    var t := ss[|ls|].(base := w, madeFor := Forget(site, ss[|ls|].madeFor, op));
    ss', ls' := Grown(site, image, ss, ls, Outside(op), t);
  }

  /** Two runs with one step between them. */
  lemma Joined(site: Site, ss: seq<State>, ls: seq<Label>, l: Label, ts: seq<State>, ks: seq<Label>)
    returns (us: seq<State>, ms: seq<Label>)
    requires IsPath(site, ss, ls) && IsPath(site, ts, ks) && Next(site, ss[|ls|], l, ts[0])
    ensures IsPath(site, us, ms) && |ls| < |ms| && us[..|ls| + 1] == ss && ms[|ls|] == l && us[|ms|] == ts[|ks|]
    ensures IsOrderly(site, ss, ls) && IsOrderly(site, ts, ks) ==>
      forall i :: 0 <= i < |ms| && i != |ls| ==> OrderlyAt(site, us, ms, i)
    ensures IsHonest(site, ss, ls) && IsHonest(site, ts, ks) ==>
      forall i :: 0 <= i < |ms| && i != |ls| ==> HonestAt(site, us, ms, i)
    ensures us == ss + ts && ms == ls + [l] + ks
  {
    us, ms := ss + ts, ls + [l] + ks;
    var n := |ls| + 1;
    forall i | 0 <= i < |ms| ensures NextAt(site, us, ms, i) {
      assert if i < |ls| then NextAt(site, ss, ls, i) else i == |ls| || NextAt(site, ts, ks, i - n);
    }
    if IsOrderly(site, ss, ls) && IsOrderly(site, ts, ks) {
      forall i | 0 <= i < |ms| && i != |ls| ensures OrderlyAt(site, us, ms, i) {
        assert if i < |ls| then OrderlyAt(site, ss, ls, i) else OrderlyAt(site, ts, ks, i - n);
      }
    }
    if IsHonest(site, ss, ls) && IsHonest(site, ts, ks) {
      forall i | 0 <= i < |ms| && i != |ls| ensures HonestAt(site, us, ms, i) {
        assert if i < |ls| then HonestAt(site, ss, ls, i) else HonestAt(site, ts, ks, i - n);
      }
    }
  }

  lemma NewObject(site: Site, image: Image) returns (ss: seq<State>, ls: seq<Label>)
    ensures GoodRun(site, image, ss, ls) && ss[|ls|] == Fresh(image)
  {
    ss, ls := [Fresh(image)], [];
  }

  /** The object once its finalizer is stored. */
  function Finalized(image: Image): Obj {
    Obj(1, image, NO_IMAGE, true, false, false, false)
  }

  /** A pass over the new object that finds no guest is about to create one. */
  lemma AboutToCreate(site: Site, image: Image, ss: seq<State>, ls: seq<Label>, nodes: Nodes)
    returns (ss': seq<State>, ls': seq<Label>)
    requires GoodRun(site, image, ss, ls) && ss[|ls|] == Fresh(image).(base := World(nodes, map[]))
    requires CachedId(nodes, site.node, site.name).None?
    ensures GoodRun(site, image, ss', ls')
    ensures ss'[|ls'|] == ss[|ls|].(obj := Some(Finalized(image)), pass := MustCreate(Finalized(image)))
  {
    var t := ss[|ls|];
    t := t.(pass := Started(t.obj.value));
    ss', ls' := Grown(site, image, ss, ls, Begin, t);
    t := t.(obj := Some(Finalized(image)), pass := Ensured(Finalized(image)));
    ss', ls' := Grown(site, image, ss', ls', Ensure, t);
    t := t.(pass := Checked(Finalized(image), false));
    ss', ls' := Grown(site, image, ss', ls', CheckExists(Ok(0)), t);
    t := t.(pass := MustCreate(Finalized(image)));
    ss', ls' := Grown(site, image, ss', ls', Decide, t);
  }

  function Lxc(name: string, tags: string): CT {
    CT(name, false, 1, 512, tags)
  }

  /** The container a creation makes. */
  function Guest(site: Site, image: Image): CT {
    Lxc(site.name, Tag(site, image.ref))
  }

  lemma CreatedIs(site: Site, s: State, l: Label, t: State)
    requires l.CreateGuest? && Next(site, s, l, t)
    ensures t.obj == s.obj && t.madeFor == s.madeFor[l.id := s.pass.snap.image.ref]
    ensures t.base.cts == s.base.cts[(site.node, l.id) := l.ct]
    ensures !l.cached ==> t.base.nodes == s.base.nodes
  {
  }

  // ----------------------------------------------------------------- an orphan

  /** Between the look-up and the creation somebody else makes a container of the name,
      it is looked up, and it goes again: its VMID stays cached. */
  lemma NameLeftBehind(site: Site, image: Image) returns (ss: seq<State>, ls: seq<Label>)
    requires site.node != ""
    ensures GoodRun(site, image, ss, ls)
    ensures ss[|ls|].obj == Some(Finalized(image)) && ss[|ls|].pass == MustCreate(Finalized(image))
    ensures ss[|ls|].base.cts == map[] && CachedId(ss[|ls|].base.nodes, site.node, site.name) == Some(101)
  {
    ss, ls := NewObject(site, image);
    ss, ls := AboutToCreate(site, image, ss, ls, map[]);
    var cts := map[(site.node, 101) := Lxc(site.name, "")];
    var nodes := map[site.node := NodeCache(map[site.name := 101], map[])];
    ss, ls := GrownOutside(site, image, ss, ls, OutsideCreate(site.node, 101, Lxc(site.name, "")), World(map[], cts));
    ss, ls := GrownOutside(site, image, ss, ls, Lookup(site.node, site.name, Ok(101)), World(nodes, cts));
    ss, ls := GrownOutside(site, image, ss, ls, OutsideDestroy(site.node, 101), World(nodes, map[]));
  }

  /** A creation that does not fit is reached from a new object by a good run. */
  lemma UnfitReached(site: Site, image: Image) returns (ss: seq<State>, ls: seq<Label>, l: Label, t: State)
    requires site.node != ""
    ensures GoodRun(site, image, ss, ls) && Safe(site, ss[|ls|])
    ensures l == CreateGuest(102, Guest(site, image), false) && Next(site, ss[|ls|], l, t)
    ensures UniqueName(t.base.cts, site.node, site.name) && !Fits(site, ss[|ls|], l)
  {
    ss, ls := NameLeftBehind(site, image);
    PathKeepsSafe(site, ss, ls, |ls|);
    var s, ct := ss[|ls|], Guest(site, image);
    l := CreateGuest(102, ct, false);
    t := s.(base := s.base.(cts := map[(site.node, 102) := ct]), madeFor := s.madeFor[102 := image.ref],
            pass := Created(Finalized(image)));
  }

  /** So there is a run from a new object, out of order in one creation only, that ends
      with the object gone and its guest left behind. */
  lemma OrphanReached(site: Site, image: Image) returns (us: seq<State>, ms: seq<Label>, n: nat)
    requires site.node != ""
    ensures IsPath(site, us, ms) && Init(site, us[0]) && n < |ms| && Orphaned(site, us[|ms|])
    ensures ms[n].CreateGuest? && forall i :: 0 <= i < |ms| ==> (OrderlyAt(site, us, ms, i) <==> i != n)
  {
    var ss, ls, l, t := UnfitReached(site, image);
    assert l.id == 102 && HasName(t.base.cts, site.node, 102, site.name);
    CreatedIs(site, ss[|ls|], l, t);
    var ts, ks := Orphan(site, t, 102);
    us, ms := Joined(site, ss, ls, l, ts, ks);
    n := |ls|;
    assert us[0] == us[..n + 1][0] && us[n] == us[..n + 1][n];
  }

  // ------------------------------------------------------------- a wrong image

  function Other(site: Site): string {
    site.name + "x"
  }

  /** A container of another name, made by hand with any tags, that was polled and
      has gone: its object stays cached under its VMID. */
  lemma ObjectLeftBehind(site: Site, image: Image, tags: string) returns (ss: seq<State>, ls: seq<Label>, nodes: Nodes)
    requires site.node != ""
    ensures GoodRun(site, image, ss, ls) && ss[|ls|] == Fresh(image).(base := World(nodes, map[]))
    ensures CachedId(nodes, site.node, site.name).None?
    ensures CachedObj(nodes, site.node, 100) == Some(CtObj(site.node, 100, Lxc(Other(site), tags)))
  {
    ss, ls := NewObject(site, image);
    var theirs := Lxc(Other(site), tags);
    var o, cts := CtObj(site.node, 100, theirs), map[(site.node, 100) := theirs];
    nodes := map[site.node := NodeCache(map[Other(site) := 100], map[100 := o])];
    ss, ls := GrownOutside(site, image, ss, ls, OutsideCreate(site.node, 100, theirs), World(map[], cts));
    ss, ls := GrownOutside(site, image, ss, ls, Op.Poll(site.node, Other(site), 100, Ok(o)), World(nodes, cts));
    ss, ls := GrownOutside(site, image, ss, ls, OutsideDestroy(site.node, 100), World(nodes, map[]));
  }

  /** A harmful creation is reached by a good run, whenever two references have
      different tags. */
  lemma HarmfulReached(site: Site, image: Image, ref: string)
    returns (ss: seq<State>, ls: seq<Label>, l: Label, t: State)
    requires TagLaws(site.naming) && !site.cloned && site.node != ""
    requires !site.naming.blank(image.ref) && !site.naming.blank(ref) && Tag(site, ref) != Tag(site, image.ref)
    ensures GoodRun(site, image, ss, ls) && Safe(site, ss[|ls|]) && Truthful(site, ss[|ls|])
    ensures l == CreateGuest(100, Guest(site, image), false) && Next(site, ss[|ls|], l, t)
    ensures Orderly(site, ss[|ls|], l, t) && Harmful(site, ss[|ls|], l)
    ensures t.obj == Some(Finalized(image)) && t.madeFor == map[100 := image.ref]
    ensures t.base.cts == map[(site.node, 100) := Guest(site, image)]
    ensures CachedObj(t.base.nodes, site.node, 100) == Some(CtObj(site.node, 100, Lxc(Other(site), "")))
  {
    var nodes;
    ss, ls, nodes := ObjectLeftBehind(site, image, "");
    ss, ls := AboutToCreate(site, image, ss, ls, nodes);
    PathKeepsTruth(site, ss, ls, |ls|);
    var s, ct := ss[|ls|], Guest(site, image);
    l := CreateGuest(100, ct, false);
    t := s.(base := s.base.(cts := map[(site.node, 100) := ct]), madeFor := s.madeFor[100 := image.ref],
            pass := Created(Finalized(image)));
    assert MatchesTags(site, "", ref);
  }

  /** So there is an orderly run from a new object, dishonest in one creation only, that
      ends with an applied image the guest does not have. */
  lemma WrongImageReached(site: Site, image: Image, ref: string)
    returns (us: seq<State>, ms: seq<Label>, n: nat)
    requires TagLaws(site.naming) && !site.cloned && site.node != ""
    requires !site.naming.blank(image.ref) && !site.naming.blank(ref) && Tag(site, ref) != Tag(site, image.ref)
    ensures IsPath(site, us, ms) && IsOrderly(site, us, ms) && Init(site, us[0]) && n < |ms|
    ensures !TagAgrees(site, us[|ms|])
    ensures ms[n].CreateGuest? && forall i :: 0 <= i < |ms| ==> (HonestAt(site, us, ms, i) <==> i != n)
  {
    var ss, ls, l, t := HarmfulReached(site, image, ref);
    StepKeepsSafe(site, ss[|ls|], l, t);
    assert MatchesTags(site, "", ref);
    var ts, ks := WrongAdoption(site, t, 100, ref);
    us, ms := Joined(site, ss, ls, l, ts, ks);
    n := |ls|;
    assert us[0] == us[..n + 1][0] && us[n] == us[..n + 1][n];
    assert OrderlyAt(site, us, ms, n);
  }

  // ----------------------------------------------------------- a needless replacement

  /** Tags that name no image at all. */
  ghost predicate NameNothing(n: Naming, tags: string) {
    !n.blank(tags) && forall ref :: !n.blank(ref) ==> !n.hasTag(tags, ref)
  }

  /** Such tags exist: the source's all start with "img-". */
  lemma WordNamesNothing(id: Digest, word: string)
    requires PlainWord(word) && !("img-" <= word)
    ensures NameNothing(OciNames(id), word)
  {
    var n := OciNames(id);
    forall ref | !n.blank(ref) ensures !n.hasTag(word, ref) {
      WordNamesNot(id, word, ref);
    }
    WordNamesNot(id, word, "");
  }

  lemma WordNamesNot(id: Digest, word: string, ref: string)
    requires PlainWord(word) && !("img-" <= word)
    ensures !OciNames(id).hasTag(word, ref) && !OciNames(id).blank(word)
  {
    OtherWordNamesNothing(id, word, ref);
  }

  /** A spoiling creation is reached by a good run. */
  lemma SpoilingReached(site: Site, image: Image, tags: string)
    returns (ss: seq<State>, ls: seq<Label>, l: Label, t: State)
    requires TagLaws(site.naming) && !site.cloned && site.node != "" && !site.naming.blank(image.ref)
    requires NameNothing(site.naming, tags)
    ensures GoodRun(site, image, ss, ls) && Safe(site, ss[|ls|]) && Truthful(site, ss[|ls|])
    ensures l == CreateGuest(100, Guest(site, image), false) && Next(site, ss[|ls|], l, t)
    ensures Orderly(site, ss[|ls|], l, t) && Honest(site, ss[|ls|], l) && Spoils(site, ss[|ls|], l)
    ensures t.obj == Some(Finalized(image)) && t.madeFor == map[100 := image.ref]
    ensures t.base.cts == map[(site.node, 100) := Guest(site, image)]
    ensures CachedObj(t.base.nodes, site.node, 100) == Some(CtObj(site.node, 100, Lxc(Other(site), tags)))
  {
    var nodes;
    ss, ls, nodes := ObjectLeftBehind(site, image, tags);
    ss, ls := AboutToCreate(site, image, ss, ls, nodes);
    PathKeepsTruth(site, ss, ls, |ls|);
    var s, ct := ss[|ls|], Guest(site, image);
    l := CreateGuest(100, ct, false);
    t := s.(base := s.base.(cts := map[(site.node, 100) := ct]), madeFor := s.madeFor[100 := image.ref],
            pass := Created(Finalized(image)));
  }

  /** So there is an orderly and honest run from a new object in which a guest of the
      wanted image is destroyed to be made again. */
  lemma WasteReached(site: Site, image: Image, tags: string) returns (us: seq<State>, ms: seq<Label>)
    requires TagLaws(site.naming) && !site.cloned && site.node != "" && !site.naming.blank(image.ref)
    requires NameNothing(site.naming, tags)
    ensures IsPath(site, us, ms) && IsOrderly(site, us, ms) && IsHonest(site, us, ms) && Init(site, us[0])
    ensures |ms| > 0 && WasteAt(site, us, ms, |ms| - 1)
  {
    var ss, ls, l, t := SpoilingReached(site, image, tags);
    StepKeepsSafe(site, ss[|ls|], l, t);
    var ts, ks := Wasted(site, t, 100, image);
    us, ms := Joined(site, ss, ls, l, ts, ks);
    var n := |ls|;
    assert us[0] == us[..n + 1][0] && us[n] == us[..n + 1][n];
    assert OrderlyAt(site, us, ms, n) && HonestAt(site, us, ms, n);
    assert WasteAt(site, ts, ks, |ks| - 1);
  }

  // ----------------------------------------------------------- another container

  lemma CreatedFirst(site: Site, image: Image) returns (ss: seq<State>, ls: seq<Label>)
    requires site.node != ""
    ensures GoodRun(site, image, ss, ls)
    ensures
      ss[|ls|] == State(World(map[], map[(site.node, 100) := Guest(site, image)]), Some(Finalized(image)),
                        map[100 := image.ref], false, Created(Finalized(image)))
  {
    ss, ls := NewObject(site, image);
    ss, ls := AboutToCreate(site, image, ss, ls, map[]);
    var t, o, ct := ss[|ls|], Finalized(image), Guest(site, image);
    t := t.(base := t.base.(cts := map[(site.node, 100) := ct]), madeFor := map[100 := image.ref], pass := Created(o));
    ss, ls := Grown(site, image, ss, ls, CreateGuest(100, ct, false), t);
  }

  lemma FoundFirst(site: Site, image: Image) returns (ss: seq<State>, ls: seq<Label>, nodes: Nodes)
    requires site.node != ""
    ensures GoodRun(site, image, ss, ls) && CachedId(nodes, site.node, site.name) == Some(100)
    ensures
      ss[|ls|] == State(World(nodes, map[(site.node, 100) := Guest(site, image)]), Some(Finalized(image)),
                        map[100 := image.ref], false, Created(Finalized(image)))
  {
    ss, ls := CreatedFirst(site, image);
    nodes := map[site.node := NodeCache(map[site.name := 100], map[])];
    ss, ls := GrownOutside(site, image, ss, ls, Lookup(site.node, site.name, Ok(100)), ss[|ls|].base.(nodes := nodes));
  }

  /** The guest made for the object, recorded and settled. */
  lemma Kept(site: Site, image: Image) returns (ss: seq<State>, ls: seq<Label>)
    requires site.node != ""
    ensures GoodRun(site, image, ss, ls) && ss[|ls|].pass.Idle? && ss[|ls|].obj.Some?
    ensures site.cloned || ss[|ls|].obj.value.applied == ss[|ls|].obj.value.image
    ensures ss[|ls|].base.cts == map[(site.node, 100) := Guest(site, image)]
    ensures CachedId(ss[|ls|].base.nodes, site.node, site.name) == Some(100)
  {
    var nodes;
    ss, ls, nodes := FoundFirst(site, image);
    var t, o := ss[|ls|], Finalized(image);
    var p := if site.cloned then o else Patched(o, image);
    t := t.(obj := Some(p), pass := Settled(p));
    ss, ls := Grown(site, image, ss, ls, RecordApplied, t);
    t := t.(pass := Idle);
    ss, ls := Grown(site, image, ss, ls, Finish, t);
  }

  /** Between two passes the guest is destroyed and its VMID given to another container:
      that is then taken for the guest. */
  lemma MistakenReached(site: Site, image: Image) returns (ss: seq<State>, ls: seq<Label>)
    requires site.node != ""
    ensures GoodRun(site, image, ss, ls) && ss[|ls|].pass.Idle? && ss[|ls|].obj.Some?
    ensures Mistaken(site, ss[|ls|])
  {
    ss, ls := Kept(site, image);
    var w, theirs := ss[|ls|].base, Lxc(Other(site), "");
    w := w.(cts := map[]);
    ss, ls := GrownOutside(site, image, ss, ls, OutsideDestroy(site.node, 100), w);
    w := w.(cts := map[(site.node, 100) := theirs]);
    ss, ls := GrownOutside(site, image, ss, ls, OutsideCreate(site.node, 100, theirs), w);
  }

  /** A guest is seen running and then stopped by hand: every look that may use the cached
      object goes on showing it running. */
  lemma DeceivedReached(site: Site, cores: int, memory: int) returns (ws: seq<World>, ops: seq<Op>)
    requires site.node != ""
    ensures IsRun(ws, ops) && Deceived(site, cores, memory, ws[|ops|])
  {
    var at, ct := (site.node, 100), CT(site.name, true, cores, memory, "");
    var off, o := ct.(running := false), CtObj(site.node, 100, ct);
    var seen := map[site.node := NodeCache(map[site.name := 100], map[100 := o])];
    ws := [World(map[], map[]), World(map[], map[at := ct]), World(seen, map[at := ct]), World(seen, map[at := off])];
    ops := [OutsideCreate(site.node, 100, ct), Poll(site.node, site.name, 100, Ok(o)), Change(site.node, 100, off)];
    assert TookAt(ws, ops, 0) && TookAt(ws, ops, 1) && TookAt(ws, ops, 2);
  }
}
