/**
 * The behaviour the splitter's test suite pins down, stated as lemmas about
 * Execute (what a run of a configured SplitZip returns) and as a method that
 * drives the builder the way the tests do.
 */
module SplitZipScenarios {
  import opened Wrappers
  import opened SplitPlan
  import opened SplitZip

  // ------------------------------------------------------------------
  // One output
  // ------------------------------------------------------------------

  /** With one output, no list and no resource output, the single shard is the merged pool, stamped. */
  lemma SingleOutputCopies(inputs: seq<Archive>, date: Option<int>, fs: FileSystem, isResource: string -> bool)
    ensures Execute(inputs, 1, None, None, date, fs, isResource)
      == Success(Output([StampAll(Merge(inputs), date)], None))
  {
    var pool := Merge(inputs);
    ExecuteWithoutList(inputs, 1, None, date, fs, isResource);
    PlanOneSlot(pool, false, isResource);
    CodeOfEverything(pool, isResource);
    assert StampShards([pool], date) == [StampAll(pool, date)];
  }

  /** One input with distinct paths, one output, no date: the output is the input, entry for entry. */
  lemma CopyIsIdentity(a: Archive, fs: FileSystem, isResource: string -> bool)
    requires UniquePaths(a)
    ensures Execute([a], 1, None, None, None, fs, isResource) == Success(Output([a], None))
  {
    SingleOutputCopies([a], None, fs, isResource);
    MergeSingle(a);
    StampNone(a);
  }

  /** A configured date replaces every timestamp and keeps order, paths and contents. */
  lemma EntryDateStampsEveryEntry(a: Archive, date: int, fs: FileSystem, isResource: string -> bool)
    requires UniquePaths(a)
    ensures var r := Execute([a], 1, None, None, Some(date), fs, isResource);
      && r.Success? && |r.value.shards| == 1 && |r.value.shards[0]| == |a|
      && forall i :: 0 <= i < |a| ==>
           r.value.shards[0][i] == Entry(a[i].path, a[i].content, date)
  {
    SingleOutputCopies([a], Some(date), fs, isResource);
    MergeSingle(a);
    StampAllEffect(a, Some(date));
  }

  lemma MergeSamePath(e1: Entry, e2: Entry)
    requires e1.path == e2.path
    ensures Merge([[e1], [e2]]) == [e1]
  {
    var inputs := [[e1], [e2]];
    assert inputs[..1] == [[e1]] && inputs[..1][..0] == [];
    assert Flatten(inputs[..1]) == [] + [e1];
    assert Flatten(inputs) == [e1] + [e2];
    DedupSnoc([e1], e2);
    DedupSnoc([], e1);
    assert [] + [e1] == [e1];
    assert PathsOf([e1]) == {e1.path};
  }

  /** Two inputs holding the same path: the output holds it once, from the input added first. */
  lemma DuplicateKeepsFirstInput(e1: Entry, e2: Entry, fs: FileSystem, isResource: string -> bool)
    requires e1.path == e2.path
    ensures Execute([[e1], [e2]], 1, None, None, None, fs, isResource) == Success(Output([[e1]], None))
  {
    SingleOutputCopies([[e1], [e2]], None, fs, isResource);
    MergeSamePath(e1, e2);
    StampNone([e1]);
  }

  // ------------------------------------------------------------------
  // A main-class list and two outputs
  // ------------------------------------------------------------------

  /**
   * With a list and two outputs, shard 1 holds exactly the listed entries in
   * list order, and shard 2 every other entry in input order.
   */
  lemma ListWithTwoOutputs(inputs: seq<Archive>, listFile: string, date: Option<int>, fs: FileSystem, isResource: string -> bool)
    requires listFile in fs.texts
    ensures var pool := Merge(inputs);
      var names := ParseList(fs.texts[listFile]);
      Execute(inputs, 2, None, Some(listFile), date, fs, isResource)
        == Success(Output([StampAll(Picked(pool, names), date), StampAll(Select(pool, NotListed(names)), date)], None))
  {
    var pool := Merge(inputs);
    var names := ParseList(fs.texts[listFile]);
    var plan := PlanOf(pool, Some(names), 2, false, isResource);
    ExecuteWithList(inputs, 2, listFile, date, fs, isResource);
    PlanListTwoSlots(pool, names, false, isResource);
    assert CodeOf(pool, Some(names), false, isResource) == Select(pool, NotListed(names));
    var shards := [Picked(pool, names), Select(pool, NotListed(names))];
    assert plan.shards == shards;
    StampShardsPair(shards[0], shards[1], date);
    assert shards == [shards[0], shards[1]];
  }

  /** The list file of the tests parses to its two names. */
  lemma TestListParses()
    ensures ParseList("pkg1/test1.class" + "\n" + "pkg2/test2.class" + "\n") == ["pkg1/test1.class", "pkg2/test2.class"]
  {
    var a, b := "pkg1/test1.class", "pkg2/test2.class";
    assert ListText([b]) == b + "\n" by {
      assert [b][1..] == [];
    }
    assert ListText([a, b]) == a + "\n" + ListText([b]) by {
      assert [a, b][1..] == [b];
    }
    assert '\n' !in a && '\n' !in b;
    ParseListText([a, b]);
    assert a + "\n" + (b + "\n") == a + "\n" + b + "\n";
  }

  // ------------------------------------------------------------------
  // Two outputs and no list
  // ------------------------------------------------------------------

  function Keep(e: Entry, keep: string -> bool): Archive
  {
    if keep(e.path) then [e] else []
  }

  lemma SelectSix(s: Archive, keep: string -> bool)
    requires |s| == 6
    ensures Select(s, keep) == Keep(s[0], keep) + Keep(s[1], keep) + Keep(s[2], keep)
                             + Keep(s[3], keep) + Keep(s[4], keep) + Keep(s[5], keep)
  {
    assert s[..1][..0] == [];
    assert Select(s[..1], keep) == Keep(s[0], keep);
    assert s[..2][..1] == s[..1];
    assert Select(s[..2], keep) == Keep(s[0], keep) + Keep(s[1], keep);
    assert s[..3][..2] == s[..2];
    assert Select(s[..3], keep) == Keep(s[0], keep) + Keep(s[1], keep) + Keep(s[2], keep);
    assert s[..4][..3] == s[..3];
    assert Select(s[..4], keep) == Keep(s[0], keep) + Keep(s[1], keep) + Keep(s[2], keep) + Keep(s[3], keep);
    assert s[..5][..4] == s[..4];
    assert Select(s[..5], keep) == Keep(s[0], keep) + Keep(s[1], keep) + Keep(s[2], keep) + Keep(s[3], keep)
                                 + Keep(s[4], keep);
    assert s[..6][..5] == s[..5];
    assert s[..6] == s;
  }

  /** Two top-level directories, three entries each, alternating as the split tests add them. */
  predicate Interleaved(s: Archive, kx: string, ky: string)
  {
    && |s| == 6 && kx != ky
    && TopDir(s[0].path) == kx && TopDir(s[2].path) == kx && TopDir(s[4].path) == kx
    && TopDir(s[1].path) == ky && TopDir(s[3].path) == ky && TopDir(s[5].path) == ky
  }

  lemma InterleavedKeys(s: Archive, kx: string, ky: string)
    requires Interleaved(s, kx, ky)
    ensures GroupKeys(s) == [kx, ky]
  {
    assert s[..0] == [];
    KeysAdd(s, 0, []);
    KeysAdd(s, 1, [kx]);
    KeysKeep(s, 2, [kx, ky]);
    KeysKeep(s, 3, [kx, ky]);
    KeysKeep(s, 4, [kx, ky]);
    KeysKeep(s, 5, [kx, ky]);
    assert s[..6] == s;
  }

  /** An entry of a group already seen adds no key. */
  lemma KeysKeep(s: Archive, i: nat, keys: seq<string>)
    requires i < |s| && GroupKeys(s[..i]) == keys && TopDir(s[i].path) in keys
    ensures GroupKeys(s[..i + 1]) == keys
  {
    assert s[..i + 1][..i] == s[..i];
  }

  /** An entry of a new group adds its key at the end. */
  lemma KeysAdd(s: Archive, i: nat, keys: seq<string>)
    requires i < |s| && GroupKeys(s[..i]) == keys && TopDir(s[i].path) !in keys
    ensures GroupKeys(s[..i + 1]) == keys + [TopDir(s[i].path)]
  {
    assert s[..i + 1][..i] == s[..i];
  }

  lemma InterleavedGroups(s: Archive, kx: string, ky: string)
    requires Interleaved(s, kx, ky)
    ensures Groups(s) == [Group(kx, 3), Group(ky, 3)]
  {
    InterleavedKeys(s, kx, ky);
    SelectSix(s, InGroup(kx));
    SelectSix(s, InGroup(ky));
    var gs := Groups(s);
    assert |gs| == 2;
    assert gs[0] == Group(kx, |Select(s, InGroup(kx))|);
    assert gs[1] == Group(ky, |Select(s, InGroup(ky))|);
  }

  /** Sorting keeps two groups of equal size in first-seen order. */
  lemma SortKeepsEqualPair(a: Group, b: Group)
    requires a.size == b.size
    ensures SortBySize([a, b]) == [a, b]
  {
    assert [a, b][1..] == [b];
    assert [b][1..] == [];
    assert SortBySize([b]) == [b];
  }

  /** Two nonempty groups over two empty slots: the first takes slot 0, the second slot 1. */
  lemma GreedyPair(a: Group, b: Group)
    requires a.key != b.key && a.size > 0
    ensures Greedy([a, b], [0, 0], 0) == map[a.key := 0, b.key := 1]
  {
    assert LeastLoaded([0, 0], 0) == 0;
    assert [0, 0][0 := a.size] == [a.size, 0];
    assert LeastLoaded([a.size, 0], 0) == 1;
    assert [a, b][1..] == [b];
    assert [b][1..] == [];
    assert Greedy([b], [a.size, 0], 0) == map[b.key := 1];
  }

  /** Two groups of equal size: the first-seen directory takes slot 0, the other slot 1. */
  lemma InterleavedBalance(s: Archive, kx: string, ky: string)
    requires Interleaved(s, kx, ky)
    ensures Balance(s, 0, 2) == map[kx := 0, ky := 1]
  {
    InterleavedGroups(s, kx, ky);
    SortKeepsEqualPair(Group(kx, 3), Group(ky, 3));
    var zero: seq<nat> := seq(2, _ => 0);
    assert zero == [0, 0];
    GreedyPair(Group(kx, 3), Group(ky, 3));
  }

  /** Selecting the entries in even positions of six. */
  lemma SelectEven(s: Archive, keep: string -> bool)
    requires |s| == 6
    requires keep(s[0].path) && keep(s[2].path) && keep(s[4].path)
    requires !keep(s[1].path) && !keep(s[3].path) && !keep(s[5].path)
    ensures Select(s, keep) == [s[0], s[2], s[4]]
  {
    SelectSix(s, keep);
  }

  /** Selecting the entries in odd positions of six. */
  lemma SelectOdd(s: Archive, keep: string -> bool)
    requires |s| == 6
    requires !keep(s[0].path) && !keep(s[2].path) && !keep(s[4].path)
    requires keep(s[1].path) && keep(s[3].path) && keep(s[5].path)
    ensures Select(s, keep) == [s[1], s[3], s[5]]
  {
    SelectSix(s, keep);
  }

  /** Sends even positions to slot 0 and odd positions to slot 1. */
  predicate Alternates(s: Archive, assign: map<string, nat>)
    requires |s| == 6
  {
    && SlotOf(assign, 0, TopDir(s[0].path)) == 0 && SlotOf(assign, 0, TopDir(s[2].path)) == 0
    && SlotOf(assign, 0, TopDir(s[4].path)) == 0 && SlotOf(assign, 0, TopDir(s[1].path)) == 1
    && SlotOf(assign, 0, TopDir(s[3].path)) == 1 && SlotOf(assign, 0, TopDir(s[5].path)) == 1
  }

  lemma InterleavedSlots(s: Archive, kx: string, ky: string)
    requires Interleaved(s, kx, ky)
    ensures Alternates(s, Balance(s, 0, 2))
  {
    InterleavedBalance(s, kx, ky);
  }

  lemma AlternatingSlots(s: Archive, assign: map<string, nat>)
    requires |s| == 6 && Alternates(s, assign)
    ensures Select(s, InSlot(assign, 0, 0)) == [s[0], s[2], s[4]]
    ensures Select(s, InSlot(assign, 0, 1)) == [s[1], s[3], s[5]]
  {
    SelectEven(s, InSlot(assign, 0, 0));
    SelectOdd(s, InSlot(assign, 0, 1));
  }

  lemma AlternatingShards(s: Archive, assign: map<string, nat>)
    requires |s| == 6 && Alternates(s, assign)
    ensures var ss := Shards([], s, assign, 0, 2);
      |ss| == 2 && ss[0] == [s[0], s[2], s[4]] && ss[1] == [s[1], s[3], s[5]]
  {
    var even := Select(s, InSlot(assign, 0, 0));
    ShardsTwo([], s, assign, 0);
    EmptyPrefix(even);
    AlternatingSlots(s, assign);
  }

  lemma EmptyPrefix(a: Archive)
    ensures [] + a == a
  {
  }

  lemma InterleavedShards(s: Archive, kx: string, ky: string)
    requires Interleaved(s, kx, ky)
    ensures var ss := Shards([], s, Balance(s, 0, 2), 0, 2);
      |ss| == 2 && ss[0] == [s[0], s[2], s[4]] && ss[1] == [s[1], s[3], s[5]]
  {
    InterleavedSlots(s, kx, ky);
    AlternatingShards(s, Balance(s, 0, 2));
  }

  /** Two outputs, no list: each directory's entries fill one shard, in input order. */
  lemma SplitInTwo(s: Archive, kx: string, ky: string, fs: FileSystem, isResource: string -> bool)
    requires Interleaved(s, kx, ky) && UniquePaths(s)
    ensures var r := Execute([s], 2, None, None, None, fs, isResource);
      && r.Success? && r.value.resources == None && |r.value.shards| == 2
      && r.value.shards[0] == [s[0], s[2], s[4]] && r.value.shards[1] == [s[1], s[3], s[5]]
  {
    ExecuteWithoutList([s], 2, None, None, fs, isResource);
    MergeSingle(s);
    CodeOfEverything(s, isResource);
    SpreadOverTwo(s, s, kx, ky, false, isResource);
  }

  /** The plan of a pool whose code entries are the interleaved six, over two slots, stamped with no date. */
  lemma SpreadOverTwo(pool: Archive, s: Archive, kx: string, ky: string, withResources: bool, isResource: string -> bool)
    requires Interleaved(s, kx, ky)
    requires CodeOf(pool, None, withResources, isResource) == s
    ensures var ss := StampShards(PlanOf(pool, None, 2, withResources, isResource).shards, None);
      |ss| == 2 && ss[0] == [s[0], s[2], s[4]] && ss[1] == [s[1], s[3], s[5]]
  {
    var plan := PlanOf(pool, None, 2, withResources, isResource);
    assert Picked(pool, []) == [];
    assert plan.shards == Shards([], s, Balance(s, 0, 2), 0, 2);
    InterleavedShards(s, kx, ky);
    StampNone(plan.shards[0]);
    StampNone(plan.shards[1]);
  }

  /** The code entries of a pool led by one resource entry are the rest of the pool. */
  lemma ResourceLeavesCode(r0: Entry, s: Archive, isResource: string -> bool)
    requires isResource(r0.path) && forall i :: 0 <= i < |s| ==> !isResource(s[i].path)
    ensures CodeOf([r0] + s, None, true, isResource) == s
  {
    SelectAll([r0] + s, NotListed([]));
    SelectAppend([r0], s, NotResource(isResource));
    SelectWhole(s, NotResource(isResource));
    assert [r0][..0] == [];
    assert Select([r0], NotResource(isResource)) == [];
  }

  /** The resource entry is the whole resource output. */
  lemma ResourceAlone(r0: Entry, s: Archive, n: nat, isResource: string -> bool)
    requires n >= 1
    requires isResource(r0.path) && forall i :: 0 <= i < |s| ==> !isResource(s[i].path)
    ensures PlanOf([r0] + s, None, n, true, isResource).resources == [r0]
  {
    var pool := [r0] + s;
    calc {
      PlanOf(pool, None, n, true, isResource).resources;
      Select(Select(pool, NotListed([])), isResource);
      { SelectAll(pool, NotListed([])); }
      Select(pool, isResource);
      { SelectAppend([r0], s, isResource); }
      Select([r0], isResource) + Select(s, isResource);
      { SelectEmpty(s, isResource); assert [r0][..0] == []; }
      [r0];
    }
  }

  /** With a resource output, the resource entry goes there alone and the shards are as without it. */
  lemma SeparateResources(r0: Entry, s: Archive, kx: string, ky: string, resourceFile: string,
                          fs: FileSystem, isResource: string -> bool)
    requires Interleaved(s, kx, ky) && UniquePaths([r0] + s)
    requires isResource(r0.path) && forall i :: 0 <= i < 6 ==> !isResource(s[i].path)
    ensures var r := Execute([[r0] + s], 2, Some(resourceFile), None, None, fs, isResource);
      && r.Success? && r.value.resources == Some([r0]) && |r.value.shards| == 2
      && r.value.shards[0] == [s[0], s[2], s[4]] && r.value.shards[1] == [s[1], s[3], s[5]]
  {
    var pool := [r0] + s;
    ExecuteWithoutList([pool], 2, Some(resourceFile), None, fs, isResource);
    MergeSingle(pool);
    ResourceLeavesCode(r0, s, isResource);
    SpreadOverTwo(pool, s, kx, ky, true, isResource);
    ResourceAlone(r0, s, 2, isResource);
    StampNone([r0]);
  }

  /** In a pool with distinct paths, the entry found for a path of the pool is that entry. */
  lemma FoundAt(s: Archive, i: nat)
    requires UniquePaths(s) && i < |s|
    ensures Found(s, s[i].path) == [s[i]]
  {
    FirstFound(s, s[i].path);
    var f := First(s, s[i].path).value;
    var a :| 0 <= a < |s| && s[a] == f;
    assert a == i;
  }

  lemma PickedTwo(s: Archive, p: string, q: string)
    requires p != q
    ensures Picked(s, [p, q]) == Found(s, p) + Found(s, q)
  {
    assert [p, q][..1] == [p] && [p][..0] == [];
    assert Picked(s, [p]) == [] + Found(s, p);
  }

  /** The list names positions 0 and 3: those two are picked, the other four stay, in order. */
  lemma ListedAndRest(s: Archive)
    requires |s| == 6 && UniquePaths(s)
    ensures Picked(s, [s[0].path, s[3].path]) == [s[0], s[3]]
    ensures Select(s, NotListed([s[0].path, s[3].path])) == [s[1], s[2], s[4], s[5]]
  {
    var names := [s[0].path, s[3].path];
    PickedTwo(s, s[0].path, s[3].path);
    FoundAt(s, 0);
    FoundAt(s, 3);
    var keep := NotListed(names);
    assert keep(s[1].path) && keep(s[2].path) && keep(s[4].path) && keep(s[5].path);
    assert !keep(s[0].path) && !keep(s[3].path);
    SelectSix(s, keep);
  }

  /**
   * A list naming the entries at positions 0 and 3 of six, over two outputs:
   * shard 1 holds those two in list order, shard 2 the other four in input order.
   */
  lemma MainClassList(s: Archive, listFile: string, fs: FileSystem, isResource: string -> bool)
    requires |s| == 6 && UniquePaths(s)
    requires listFile in fs.texts && fs.texts[listFile] == ListText([s[0].path, s[3].path])
    requires s[0].path != "" && '\n' !in s[0].path && s[3].path != "" && '\n' !in s[3].path
    ensures var r := Execute([s], 2, None, Some(listFile), None, fs, isResource);
      && r.Success? && r.value.resources == None && |r.value.shards| == 2
      && r.value.shards[0] == [s[0], s[3]] && r.value.shards[1] == [s[1], s[2], s[4], s[5]]
  {
    var names := [s[0].path, s[3].path];
    ParseListText(names);
    MergeSingle(s);
    ListWithTwoOutputs([s], listFile, None, fs, isResource);
    ListedAndRest(s);
    StampNone([s[0], s[3]]);
    StampNone([s[1], s[2], s[4], s[5]]);
  }

  // ------------------------------------------------------------------
  // Driving the builder
  // ------------------------------------------------------------------

  /**
   * Configures a fresh splitter the way the list test does (two outputs, a
   * main-class list, one input) and runs it.
   */
  method RunWithList(fs: FileSystem, listFile: string, input: string, isResource: string -> bool)
    returns (r: Result<Output, SplitError>)
    requires input in fs.archives
    ensures r == Execute([fs.archives[input]], 2, None, Some(listFile), None, fs, isResource)
  {
    var z := new SplitZip();
    assert z.mainClassListFile == None && z.entryDate == None && z.resourceFile == None && !z.verbose;
    var first := z.AddOutput(Some("out/shard1.jar"));
    var second := z.AddOutput(Some("out/shard2.jar"));
    assert second == Success(z) && z.outputs == ["out/shard1.jar", "out/shard2.jar"];
    var self := z.SetMainClassListFile(Some(listFile));
    var added := z.AddInput(input, fs);
    assert z.inputs == [fs.archives[input]] && |z.outputs| == 2;
    assert z.resourceFile == None && z.mainClassListFile == Some(listFile) && z.entryDate == None;
    r := z.Run(fs, isResource);
  }

  /** Every setter hands back the same instance, and each field then holds the value last set. */
  method SettersRoundTrip(date: int) returns (verbose: bool, entryDate: Option<int>, resourceFile: Option<string>, mainClassListFile: Option<string>)
    ensures !verbose && entryDate == None && resourceFile == None && mainClassListFile == None
  {
    var z := new SplitZip();
    var self := z.SetVerbose(true);
    assert self == z && z.verbose;
    self := z.SetVerbose(false);
    self := z.SetEntryDate(Some(date));
    assert z.entryDate == Some(date);
    self := z.UseDefaultEntryDate();
    assert z.entryDate == Some(DosEpoch);
    self := z.SetEntryDate(None);
    self := z.SetResourceFile(Some("res"));
    assert z.resourceFile == Some("res");
    self := z.SetResourceFile(None);
    self := z.SetMainClassListFile(Some("x/y/z/foo.txt"));
    assert z.mainClassListFile == Some("x/y/z/foo.txt");
    self := z.SetMainClassListFile(None);
    var refused := z.AddOutput(None);
    assert refused == Failure(NullOutput) && z.outputs == [];
    verbose, entryDate, resourceFile, mainClassListFile := z.verbose, z.entryDate, z.resourceFile, z.mainClassListFile;
  }
}
