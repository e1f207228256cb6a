/**
 * The archive splitter's configuration object (SplitZip) and its run: a
 * builder whose chained setters update fields and return the same instance,
 * and a run that executes the planning pass with loops and hands back the
 * entries of every output.
 *
 * Files are named; a FileSystem maps names to the archives and the text files
 * that can be opened. Outputs are recorded by name only, and a run returns
 * their contents instead of writing them.
 */
module SplitZip {
  import opened Wrappers
  import opened SplitPlan

  /** What can be opened: archives for the inputs, text files for the main-class list. */
  datatype FileSystem = FileSystem(archives: map<string, Archive>, texts: map<string, string>)

  datatype SplitError =
    | NullOutput                 // addOutput(null): NullPointerException
    | FileNotFound(name: string) // a file that cannot be opened: FileNotFoundException
    | NoOutputs                  // run() without any output

  /** The entries written to every output shard and, when one is configured, to the resource output. */
  datatype Output = Output(shards: seq<Archive>, resources: Option<Archive>)

  /** What a run produces from a configuration, as a function of that configuration. */
  function Execute(inputs: seq<Archive>, outputCount: nat, resourceFile: Option<string>,
                   mainClassListFile: Option<string>, entryDate: Option<int>,
                   fs: FileSystem, isResource: string -> bool): (r: Result<Output, SplitError>)
    ensures outputCount == 0 ==> r == Failure(NoOutputs)
    ensures outputCount > 0 && mainClassListFile.Some? && mainClassListFile.value !in fs.texts
      ==> r == Failure(FileNotFound(mainClassListFile.value))
    ensures r.Success? <==> outputCount > 0 && (mainClassListFile.Some? ==> mainClassListFile.value in fs.texts)
    ensures r.Success? ==> |r.value.shards| == outputCount && (r.value.resources.Some? <==> resourceFile.Some?)
  {
    if outputCount == 0 then Failure(NoOutputs)
    else if mainClassListFile.Some? && mainClassListFile.value !in fs.texts then
      Failure(FileNotFound(mainClassListFile.value))
    else
      var list := if mainClassListFile.Some? then Some(ParseList(fs.texts[mainClassListFile.value])) else None;
      var plan := PlanOf(Merge(inputs), list, outputCount, resourceFile.Some?, isResource);
      Success(Output(StampShards(plan.shards, entryDate),
                     if resourceFile.Some? then Some(StampAll(plan.resources, entryDate)) else None))
  }

  /** A run with outputs and no list: the plan of the merged inputs, stamped. */
  lemma ExecuteWithoutList(inputs: seq<Archive>, outputCount: nat, resourceFile: Option<string>, entryDate: Option<int>,
                           fs: FileSystem, isResource: string -> bool)
    requires outputCount > 0
    ensures var plan := PlanOf(Merge(inputs), None, outputCount, resourceFile.Some?, isResource);
      Execute(inputs, outputCount, resourceFile, None, entryDate, fs, isResource)
        == Success(Output(StampShards(plan.shards, entryDate),
                          if resourceFile.Some? then Some(StampAll(plan.resources, entryDate)) else None))
  {
  }

  /** A run with a readable list file and no resource output: the plan of the merged inputs, stamped. */
  lemma ExecuteWithList(inputs: seq<Archive>, outputCount: nat, listFile: string, entryDate: Option<int>,
                        fs: FileSystem, isResource: string -> bool)
    requires outputCount > 0 && listFile in fs.texts
    ensures Execute(inputs, outputCount, None, Some(listFile), entryDate, fs, isResource)
      == Success(Output(StampShards(PlanOf(Merge(inputs), Some(ParseList(fs.texts[listFile])), outputCount, false, isResource).shards,
                                    entryDate), None))
  {
  }

  /** Without a date, every merged entry is written exactly once, to a shard or to the resource output. */
  lemma RunWritesEveryEntryOnce(inputs: seq<Archive>, outputCount: nat, resourceFile: Option<string>,
                                mainClassListFile: Option<string>, fs: FileSystem, isResource: string -> bool)
    requires Execute(inputs, outputCount, resourceFile, mainClassListFile, None, fs, isResource).Success?
    ensures var out := Execute(inputs, outputCount, resourceFile, mainClassListFile, None, fs, isResource).value;
      var written := Flatten(out.shards) + (if out.resources.Some? then out.resources.value else []);
      multiset(written) == multiset(Merge(inputs)) && UniquePaths(written)
  {
    var list := if mainClassListFile.Some? then Some(ParseList(fs.texts[mainClassListFile.value])) else None;
    var pool := Merge(inputs);
    var plan := PlanOf(pool, list, outputCount, resourceFile.Some?, isResource);
    var out := Execute(inputs, outputCount, resourceFile, mainClassListFile, None, fs, isResource).value;
    assert out.shards == plan.shards by {
      StampShardsNone(plan.shards);
    }
    assert (if out.resources.Some? then out.resources.value else []) == plan.resources by {
      StampNone(plan.resources);
      PlanResources(pool, list, outputCount, resourceFile.Some?, isResource);
    }
    assert UniquePaths(pool) by {
      DedupKeepsFirst(Flatten(inputs));
    }
    PlanPermutation(pool, list, outputCount, resourceFile.Some?, isResource);
  }

  /** A configured date changes nothing but the timestamps of what a date-less run writes. */
  lemma DateOnlyRestamps(inputs: seq<Archive>, outputCount: nat, resourceFile: Option<string>,
                         mainClassListFile: Option<string>, date: Option<int>, fs: FileSystem, isResource: string -> bool)
    ensures var plain := Execute(inputs, outputCount, resourceFile, mainClassListFile, None, fs, isResource);
      var dated := Execute(inputs, outputCount, resourceFile, mainClassListFile, date, fs, isResource);
      && (plain.Failure? ==> dated == plain)
      && (plain.Success? ==>
            dated == Success(Output(StampShards(plain.value.shards, date),
                                    if plain.value.resources.Some? then Some(StampAll(plain.value.resources.value, date)) else None)))
  {
    if outputCount > 0 && (mainClassListFile.Some? ==> mainClassListFile.value in fs.texts) {
      var list := if mainClassListFile.Some? then Some(ParseList(fs.texts[mainClassListFile.value])) else None;
      var plan := PlanOf(Merge(inputs), list, outputCount, resourceFile.Some?, isResource);
      StampShardsNone(plan.shards);
      StampNone(plan.resources);
    }
  }

  // ------------------------------------------------------------------
  // The steps of a run
  // ------------------------------------------------------------------

  /** Reads the inputs in the order they were added and keeps the first entry for each path. */
  method MergeInputs(inputs: seq<Archive>) returns (pool: Archive)
    ensures pool == Merge(inputs)
  {
    pool := [];
    var seen: set<string> := {};
    for i := 0 to |inputs|
      invariant pool == Dedup(Flatten(inputs[..i]))
      invariant seen == PathsOf(pool)
    {
      pool, seen := AddNewEntries(pool, seen, inputs[i], Flatten(inputs[..i]));
      assert inputs[..i + 1] == inputs[..i] + [inputs[i]];
      FlattenSnoc(inputs[..i], inputs[i]);
    }
    assert inputs[..|inputs|] == inputs;
  }

  /** Appends the entries of one input whose path has not been seen yet. */
  method AddNewEntries(pool: Archive, seen: set<string>, input: Archive, ghost before: Archive)
    returns (pool': Archive, seen': set<string>)
    requires pool == Dedup(before) && seen == PathsOf(pool)
    ensures pool' == Dedup(before + input) && seen' == PathsOf(pool')
  {
    pool', seen' := pool, seen;
    assert before + input[..0] == before;
    for j := 0 to |input|
      invariant pool' == Dedup(before + input[..j])
      invariant seen' == PathsOf(pool')
    {
      var e := input[j];
      DedupStep(before, input, j, pool', seen');
      if e.path !in seen' {
        pool' := pool' + [e];
        seen' := seen' + {e.path};
      }
    }
    assert input[..|input|] == input;
  }

  /** One more entry of the input: kept when its path is new to the de-duplicated prefix. */
  lemma DedupStep(before: Archive, input: Archive, j: nat, pool: Archive, seen: set<string>)
    requires j < |input|
    requires pool == Dedup(before + input[..j]) && seen == PathsOf(pool)
    ensures var e := input[j];
      if e.path in seen then pool == Dedup(before + input[..j + 1])
      else pool + [e] == Dedup(before + input[..j + 1]) && seen + {e.path} == PathsOf(pool + [e])
  {
    assert before + input[..j + 1] == (before + input[..j]) + [input[j]];
    DedupSnoc(before + input[..j], input[j]);
    PathsOfSnoc(pool, input[j]);
  }

  /** Scans `s` once: the first entry with path `p`, and the entries with any other path. */
  method TakePath(s: Archive, p: string) returns (found: Archive, rest: Archive)
    ensures found == Found(s, p)
    ensures rest == Select(s, NotListed([p]))
  {
    found, rest := [], [];
    for i := 0 to |s|
      invariant found == Found(s[..i], p)
      invariant rest == Select(s[..i], NotListed([p]))
    {
      assert s[..i + 1][..i] == s[..i];
      if s[i].path == p {
        if found == [] {
          found := [s[i]];
        }
      } else {
        rest := rest + [s[i]];
      }
    }
    assert s[..|s|] == s;
  }

  /** Moves the listed entries out of the pool, in list order. */
  method PullListed(pool: Archive, list: seq<string>) returns (listed: Archive, rest: Archive)
    ensures listed == Picked(pool, list)
    ensures rest == Select(pool, NotListed(list))
  {
    listed, rest := [], pool;
    SelectAll(pool, NotListed([]));
    for i := 0 to |list|
      invariant listed == Picked(pool, list[..i])
      invariant rest == Select(pool, NotListed(list[..i]))
    {
      var p := list[i];
      var init := list[..i];
      assert list[..i + 1][..i] == init;
      var found, remaining := TakePath(rest, p);
      FirstSelect(pool, NotListed(init), p);
      SelectSelect(pool, NotListed(init), NotListed([p]), NotListed(list[..i + 1]));
      listed := listed + found;
      rest := remaining;
    }
    assert list[..|list|] == list;
  }

  /** Routes resource entries to their own sequence when there is a resource output. */
  method Classify(rest: Archive, withResources: bool, isResource: string -> bool) returns (resources: Archive, code: Archive)
    ensures resources == if withResources then Select(rest, isResource) else []
    ensures code == if withResources then Select(rest, NotResource(isResource)) else rest
  {
    resources, code := [], [];
    for i := 0 to |rest|
      invariant resources == if withResources then Select(rest[..i], isResource) else []
      invariant code == if withResources then Select(rest[..i], NotResource(isResource)) else rest[..i]
    {
      assert rest[..i + 1][..i] == rest[..i];
      if withResources && isResource(rest[i].path) {
        resources := resources + [rest[i]];
      } else {
        code := code + [rest[i]];
      }
    }
    assert rest[..|rest|] == rest;
  }

  /** What slot k holds once the code entries `code` have been written. */
  function Written(listed: Archive, code: Archive, assign: map<string, nat>, first: nat, k: nat, date: Option<int>): Archive
  {
    StampAll((if k == 0 then listed else []) + Select(code, InSlot(assign, first, k)), date)
  }

  /** Writing one more code entry appends it, stamped, to its own slot and to no other. */
  lemma WrittenStep(listed: Archive, code: Archive, e: Entry, assign: map<string, nat>, first: nat, k: nat, date: Option<int>)
    ensures Written(listed, code + [e], assign, first, k, date)
      == Written(listed, code, assign, first, k, date)
         + (if SlotOf(assign, first, TopDir(e.path)) == k then [Stamp(e, date)] else [])
  {
    var keep := InSlot(assign, first, k);
    var head := if k == 0 then listed else [];
    var before := Select(code, keep);
    var extra := if keep(e.path) then [e] else [];
    SelectSnoc(code, e, keep);
    ArchiveAppendAssoc(head, before, extra);
    StampAppend(head + before, extra, date);
    StampOptional(e, keep(e.path), date);
  }

  lemma ArchiveAppendAssoc(a: Archive, b: Archive, c: Archive)
    ensures a + (b + c) == a + b + c
  {
  }

  /** Stamping an entry that may or may not be there. */
  lemma StampOptional(e: Entry, present: bool, date: Option<int>)
    ensures StampAll(if present then [e] else [], date) == if present then [Stamp(e, date)] else []
  {
    assert [e][..0] == [];
  }

  /** Slot k holds what has been written to it after the first `i` code entries. */
  predicate WrittenUpTo(shards: seq<Archive>, listed: Archive, code: Archive, i: nat, assign: map<string, nat>,
                        first: nat, n: nat, date: Option<int>)
    requires i <= |code|
  {
    |shards| == n && forall k :: 0 <= k < n ==> shards[k] == Written(listed, code[..i], assign, first, k, date)
  }

  lemma EmitStart(listed: Archive, code: Archive, assign: map<string, nat>, first: nat, n: nat, date: Option<int>)
    ensures WrittenUpTo(seq(n, k requires 0 <= k < n => if k == 0 then StampAll(listed, date) else []),
                        listed, code, 0, assign, first, n, date)
  {
    forall k | 0 <= k < n ensures Written(listed, code[..0], assign, first, k, date)
                                  == if k == 0 then StampAll(listed, date) else [] {
      assert code[..0] == [];
      assert (if k == 0 then listed else []) + [] == (if k == 0 then listed else []);
    }
  }

  /** Appending code entry i, stamped, to its slot extends what has been written by one entry. */
  lemma EmitStep(shards: seq<Archive>, listed: Archive, code: Archive, i: nat, assign: map<string, nat>,
                 first: nat, n: nat, date: Option<int>)
    requires i < |code| && WrittenUpTo(shards, listed, code, i, assign, first, n, date)
    requires SlotOf(assign, first, TopDir(code[i].path)) < n
    ensures var slot := SlotOf(assign, first, TopDir(code[i].path));
      WrittenUpTo(shards[slot := shards[slot] + [Stamp(code[i], date)]], listed, code, i + 1, assign, first, n, date)
  {
    var e := code[i];
    var slot := SlotOf(assign, first, TopDir(e.path));
    assert code[..i + 1] == code[..i] + [e];
    forall k | 0 <= k < n
      ensures Written(listed, code[..i + 1], assign, first, k, date)
        == Written(listed, code[..i], assign, first, k, date) + (if k == slot then [Stamp(e, date)] else [])
    {
      WrittenStep(listed, code[..i], e, assign, first, k, date);
    }
  }

  lemma EmitDone(shards: seq<Archive>, listed: Archive, code: Archive, assign: map<string, nat>,
                 first: nat, n: nat, date: Option<int>)
    requires WrittenUpTo(shards, listed, code, |code|, assign, first, n, date)
    ensures shards == StampShards(Shards(listed, code, assign, first, n), date)
  {
    assert code[..|code|] == code;
  }

  /** Writes every code entry, stamped, to the shard of its top-level directory. */
  method Emit(listed: Archive, code: Archive, assign: map<string, nat>, first: nat, n: nat, date: Option<int>)
    returns (shards: seq<Archive>)
    requires InRange(assign, first, n)
    ensures shards == StampShards(Shards(listed, code, assign, first, n), date)
  {
    shards := seq(n, k requires 0 <= k < n => if k == 0 then StampAll(listed, date) else []);
    EmitStart(listed, code, assign, first, n, date);
    for i := 0 to |code|
      invariant WrittenUpTo(shards, listed, code, i, assign, first, n, date)
    {
      var slot := SlotOf(assign, first, TopDir(code[i].path));
      EmitStep(shards, listed, code, i, assign, first, n, date);
      shards := shards[slot := shards[slot] + [Stamp(code[i], date)]];
    }
    EmitDone(shards, listed, code, assign, first, n, date);
  }

  /** Stamps every entry of an archive with the entry date, if any. */
  method StampEntries(s: Archive, date: Option<int>) returns (r: Archive)
    ensures r == StampAll(s, date)
  {
    r := [];
    for i := 0 to |s|
      invariant r == StampAll(s[..i], date)
    {
      assert s[..i + 1][..i] == s[..i];
      r := r + [Stamp(s[i], date)];
    }
    assert s[..|s|] == s;
  }

  // ------------------------------------------------------------------
  // The configuration object
  // ------------------------------------------------------------------

  class SplitZip {
    var inputs: seq<Archive>
    var outputs: seq<string>
    var resourceFile: Option<string>
    var mainClassListFile: Option<string>
    var entryDate: Option<int>
    var verbose: bool

    /** A fresh splitter: no inputs, no outputs, no resource file, no list, no date, not verbose. */
    constructor ()
      ensures inputs == [] && outputs == []
      ensures resourceFile == None && mainClassListFile == None && entryDate == None && !verbose
    {
      inputs := [];
      outputs := [];
      resourceFile := None;
      mainClassListFile := None;
      entryDate := None;
      verbose := false;
    }

    /** Adds an output; a null name is refused with nothing changed. */
    method AddOutput(name: Option<string>) returns (r: Result<SplitZip, SplitError>)
      modifies this`outputs
      ensures name.None? ==> r == Failure(NullOutput) && outputs == old(outputs)
      ensures name.Some? ==> r == Success(this) && outputs == old(outputs) + [name.value]
    {
      if name.None? {
        return Failure(NullOutput);
      }
      outputs := outputs + [name.value];
      r := Success(this);
    }

    /** Opens and adds an input; a name that cannot be opened fails at once, with nothing changed. */
    method AddInput(name: string, fs: FileSystem) returns (r: Result<SplitZip, SplitError>)
      modifies this`inputs
      ensures name !in fs.archives ==> r == Failure(FileNotFound(name)) && inputs == old(inputs)
      ensures name in fs.archives ==> r == Success(this) && inputs == old(inputs) + [fs.archives[name]]
    {
      if name !in fs.archives {
        return Failure(FileNotFound(name));
      }
      inputs := inputs + [fs.archives[name]];
      r := Success(this);
    }

    /**
     * Adds the inputs in order; the first name that cannot be opened fails the
     * call, and the inputs added before it stay added.
     */
    method AddInputs(names: seq<string>, fs: FileSystem) returns (r: Result<SplitZip, SplitError>)
      modifies this`inputs
      ensures r.Success? <==> forall i :: 0 <= i < |names| ==> names[i] in fs.archives
      ensures r.Success? ==>
        && r.value == this
        && inputs == old(inputs) + seq(|names|, i requires 0 <= i < |names| => fs.archives[names[i]])
      ensures r.Failure? ==>
        exists k :: (&& 0 <= k < |names| && names[k] !in fs.archives
                     && r.error == FileNotFound(names[k])
                     && (forall i :: 0 <= i < k ==> names[i] in fs.archives)
                     && inputs == old(inputs) + seq(k, i requires 0 <= i < k => fs.archives[names[i]]))
    {
      for k := 0 to |names|
        invariant forall i :: 0 <= i < k ==> names[i] in fs.archives
        invariant inputs == old(inputs) + seq(k, i requires 0 <= i < k => fs.archives[names[i]])
      {
        var added := AddInput(names[k], fs);
        if added.Failure? {
          return added;
        }
      }
      r := Success(this);
    }

    method SetResourceFile(name: Option<string>) returns (self: SplitZip)
      modifies this`resourceFile
      ensures self == this && resourceFile == name
    {
      resourceFile := name;
      self := this;
    }

    method SetMainClassListFile(name: Option<string>) returns (self: SplitZip)
      modifies this`mainClassListFile
      ensures self == this && mainClassListFile == name
    {
      mainClassListFile := name;
      self := this;
    }

    method SetEntryDate(date: Option<int>) returns (self: SplitZip)
      modifies this`entryDate
      ensures self == this && entryDate == date
    {
      entryDate := date;
      self := this;
    }

    /** Sets the entry date to the MS-DOS epoch, for reproducible archives. */
    method UseDefaultEntryDate() returns (self: SplitZip)
      modifies this`entryDate
      ensures self == this && entryDate == Some(DosEpoch)
    {
      entryDate := Some(DosEpoch);
      self := this;
    }

    method SetVerbose(flag: bool) returns (self: SplitZip)
      modifies this`verbose
      ensures self == this && verbose == flag
    {
      verbose := flag;
      self := this;
    }

    /**
     * Runs the split: merge, pull the list, route resources, balance the
     * groups, stamp and emit. The verbose flag plays no part in the result.
     */
    method Run(fs: FileSystem, isResource: string -> bool) returns (r: Result<Output, SplitError>)
      ensures r == Execute(inputs, |outputs|, resourceFile, mainClassListFile, entryDate, fs, isResource)
    {
      var n := |outputs|;
      if n == 0 {
        return Failure(NoOutputs);
      }
      var list: Option<seq<string>> := None;
      if mainClassListFile.Some? {
        var name := mainClassListFile.value;
        if name !in fs.texts {
          return Failure(FileNotFound(name));
        }
        list := Some(ParseList(fs.texts[name]));
      }
      var names := ListNames(list);
      var pool := MergeInputs(inputs);
      var listed, rest := PullListed(pool, names);
      var resources, code := Classify(rest, resourceFile.Some?, isResource);
      var first := FirstCodeSlot(list.Some?, n);
      var assign := Balance(code, first, n);
      BalancePlacesEveryGroup(code, first, n);
      var shards := Emit(listed, code, assign, first, n, entryDate);
      var resourceOut: Option<Archive> := None;
      if resourceFile.Some? {
        var stamped := StampEntries(resources, entryDate);
        resourceOut := Some(stamped);
      }
      r := Success(Output(shards, resourceOut));
    }
  }
}
