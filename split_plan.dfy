/**
 * The planning pass of the archive splitter (SplitZip.run): merging the inputs
 * with first-wins de-duplication, pulling the main-class list into the first
 * output, routing resources to their own output, keeping each top-level
 * directory in one shard, balancing the shards and stamping the entry date.
 *
 * An archive is the ordered sequence of its entries; the container format is
 * not modelled. Every sequence function here is defined from the END of its
 * argument, so that a loop that appends one element per step (the methods in
 * module SplitZip) keeps it as an invariant.
 */
module SplitPlan {
  import opened Wrappers
  import Text

  /** One archive entry: slash-separated path, opaque payload, MS-DOS packed timestamp. */
  datatype Entry = Entry(path: string, content: seq<int>, time: int)

  type Archive = seq<Entry>

  /** The MS-DOS packed encoding of 1980-01-01 00:00:00 (DosTime.EPOCH / DOS_EPOCH). */
  const DosEpoch: int := 0x0021_0000

  // ------------------------------------------------------------------
  // Sequences of entries
  // ------------------------------------------------------------------

  /** The concatenation of several archives, in order. */
  function Flatten(parts: seq<Archive>): Archive
  {
    if parts == [] then [] else Flatten(parts[..|parts| - 1]) + parts[|parts| - 1]
  }

  function PathsOf(s: Archive): set<string>
  {
    set e | e in s :: e.path
  }

  /** No path occurs twice. */
  predicate UniquePaths(s: Archive)
  {
    forall i, j :: 0 <= i < j < |s| ==> s[i].path != s[j].path
  }

  /** The first entry of `s` with path `p`, if any. */
  function First(s: Archive, p: string): Option<Entry>
  {
    if s == [] then None
    else
      var f := First(s[..|s| - 1], p);
      if f.Some? then f else if s[|s| - 1].path == p then Some(s[|s| - 1]) else None
  }

  /** The entries of `s` whose path satisfies `keep`, in the order of `s`. */
  function Select(s: Archive, keep: string -> bool): Archive
  {
    if s == [] then []
    else Select(s[..|s| - 1], keep) + (if keep(s[|s| - 1].path) then [s[|s| - 1]] else [])
  }

  /** `a` can be obtained from `b` by deleting entries (order is kept). */
  predicate IsSubseq(a: Archive, b: Archive)
    decreases |b|
  {
    if a == [] then true
    else if b == [] then false
    else if a[|a| - 1] == b[|b| - 1] then IsSubseq(a[..|a| - 1], b[..|b| - 1])
    else IsSubseq(a, b[..|b| - 1])
  }

  lemma PathsOfAppend(a: Archive, b: Archive)
    ensures PathsOf(a + b) == PathsOf(a) + PathsOf(b)
  {
    assert forall e :: e in a + b <==> e in a || e in b;
  }

  lemma {:induction false} FirstFound(s: Archive, p: string)
    ensures First(s, p).Some? <==> p in PathsOf(s)
    ensures First(s, p).Some? ==> First(s, p).value in s && First(s, p).value.path == p
  {
    if s != [] {
      var init := s[..|s| - 1];
      FirstFound(init, p);
      assert s == init + [s[|s| - 1]];
      PathsOfAppend(init, [s[|s| - 1]]);
    }
  }

  lemma {:induction false} FirstAppend(a: Archive, b: Archive, p: string)
    ensures First(a + b, p) == if First(a, p).Some? then First(a, p) else First(b, p)
    decreases |b|
  {
    if b == [] {
      assert a + b == a;
    } else {
      var b' := b[..|b| - 1];
      assert (a + b)[..|a + b| - 1] == a + b';
      FirstAppend(a, b', p);
    }
  }

  lemma SelectSnoc(s: Archive, e: Entry, keep: string -> bool)
    ensures Select(s + [e], keep) == Select(s, keep) + (if keep(e.path) then [e] else [])
  {
    assert (s + [e])[..|s|] == s;
  }

  lemma {:induction false} SelectAppend(a: Archive, b: Archive, keep: string -> bool)
    ensures Select(a + b, keep) == Select(a, keep) + Select(b, keep)
    decreases |b|
  {
    if b == [] {
      assert a + b == a;
    } else {
      var b' := b[..|b| - 1];
      assert (a + b)[..|a + b| - 1] == a + b';
      SelectAppend(a, b', keep);
    }
  }

  /** An entry is selected exactly when it is in `s` and its path is kept. */
  lemma {:induction false} SelectMembers(s: Archive, keep: string -> bool)
    ensures forall e :: e in Select(s, keep) <==> e in s && keep(e.path)
  {
    if s != [] {
      var init := s[..|s| - 1];
      SelectMembers(init, keep);
      assert s == init + [s[|s| - 1]];
    }
  }

  /** A selection is a subsequence: the order of `s` is kept. */
  lemma {:induction false} SelectIsSubseq(s: Archive, keep: string -> bool)
    ensures IsSubseq(Select(s, keep), s)
  {
    if s != [] {
      var init := s[..|s| - 1];
      SelectIsSubseq(init, keep);
      var a := Select(s, keep);
      if keep(s[|s| - 1].path) {
        assert a[..|a| - 1] == Select(init, keep);
      } else if a != [] {
        assert a == Select(init, keep);
        SelectMembers(init, keep);
        assert a[|a| - 1] in Select(init, keep);
        assert keep(a[|a| - 1].path);
        assert a[|a| - 1] != s[|s| - 1];
        assert s[..|s| - 1] == init;
      }
    }
  }

  lemma {:induction false} SelectSelect(s: Archive, f: string -> bool, g: string -> bool, h: string -> bool)
    requires forall p :: h(p) == (f(p) && g(p))
    ensures Select(Select(s, f), g) == Select(s, h)
  {
    if s != [] {
      var init := s[..|s| - 1];
      SelectSelect(init, f, g, h);
      SelectAppend(Select(init, f), if f(s[|s| - 1].path) then [s[|s| - 1]] else [], g);
    }
  }

  lemma {:induction false} SelectNone(s: Archive, keep: string -> bool)
    requires forall p :: !keep(p)
    ensures Select(s, keep) == []
  {
    if s != [] {
      SelectNone(s[..|s| - 1], keep);
    }
  }

  lemma {:induction false} SelectSame(s: Archive, f: string -> bool, g: string -> bool)
    requires forall p :: f(p) == g(p)
    ensures Select(s, f) == Select(s, g)
  {
    if s != [] {
      SelectSame(s[..|s| - 1], f, g);
    }
  }

  lemma {:induction false} SelectAll(s: Archive, keep: string -> bool)
    requires forall p :: keep(p)
    ensures Select(s, keep) == s
  {
    if s != [] {
      SelectAll(s[..|s| - 1], keep);
    }
  }

  /** Selecting with a predicate every entry meets keeps the whole sequence. */
  lemma {:induction false} SelectWhole(s: Archive, keep: string -> bool)
    requires forall i :: 0 <= i < |s| ==> keep(s[i].path)
    ensures Select(s, keep) == s
  {
    if s != [] {
      SelectWhole(s[..|s| - 1], keep);
    }
  }

  /** Selecting with a predicate no entry meets leaves nothing. */
  lemma {:induction false} SelectEmpty(s: Archive, keep: string -> bool)
    requires forall i :: 0 <= i < |s| ==> !keep(s[i].path)
    ensures Select(s, keep) == []
  {
    if s != [] {
      SelectEmpty(s[..|s| - 1], keep);
    }
  }

  lemma {:induction false} SelectPartition(s: Archive, h: string -> bool, f: string -> bool, g: string -> bool)
    requires forall p :: h(p) == (f(p) || g(p))
    requires forall p :: !(f(p) && g(p))
    ensures multiset(Select(s, h)) == multiset(Select(s, f)) + multiset(Select(s, g))
  {
    if s != [] {
      SelectPartition(s[..|s| - 1], h, f, g);
    }
  }

  lemma {:induction false} FirstSelect(s: Archive, keep: string -> bool, p: string)
    ensures First(Select(s, keep), p) == if keep(p) then First(s, p) else None
  {
    if s != [] {
      var init := s[..|s| - 1];
      FirstSelect(init, keep, p);
      var last := s[|s| - 1];
      if keep(last.path) {
        assert Select(s, keep) == Select(init, keep) + [last];
        assert Select(s, keep)[..|Select(s, keep)| - 1] == Select(init, keep);
      } else {
        assert Select(s, keep) == Select(init, keep);
      }
    }
  }

  lemma {:induction false} UniquePrefix(s: Archive, n: nat)
    requires UniquePaths(s) && n <= |s|
    ensures UniquePaths(s[..n])
  {
  }

  lemma {:induction false} UniqueSelect(s: Archive, keep: string -> bool)
    requires UniquePaths(s)
    ensures UniquePaths(Select(s, keep))
  {
    if s != [] {
      var init := s[..|s| - 1];
      UniqueSelect(init, keep);
      var last := s[|s| - 1];
      if keep(last.path) {
        SelectMembers(init, keep);
        var a := Select(init, keep);
        forall i | 0 <= i < |a| ensures a[i].path != last.path {
          assert a[i] in init;
        }
      }
    }
  }

  /** A sequence with unique paths holds each entry at most once. */
  lemma {:induction false} UniqueCounts(s: Archive)
    requires UniquePaths(s)
    ensures forall e :: multiset(s)[e] <= 1
  {
    if s != [] {
      var init := s[..|s| - 1];
      UniqueCounts(init);
      assert s == init + [s[|s| - 1]];
      assert s[|s| - 1] !in init;
    }
  }

  lemma RepeatedCount(t: Archive, i: nat, j: nat)
    requires i < j < |t| && t[i] == t[j]
    ensures multiset(t)[t[i]] >= 2
  {
    assert t == t[..j] + [t[j]] + t[j + 1..];
    assert t[i] in t[..j];
  }

  /** Reordering cannot introduce a duplicate path. */
  lemma UniqueUnderPermutation(s: Archive, t: Archive)
    requires UniquePaths(s)
    requires multiset(s) == multiset(t)
    ensures UniquePaths(t)
  {
    UniqueCounts(s);
    forall i, j | 0 <= i < j < |t| ensures t[i].path != t[j].path {
      if t[i] == t[j] {
        RepeatedCount(t, i, j);
        assert false;
      } else {
        assert t[i] in multiset(s) && t[j] in multiset(s);
        var a :| 0 <= a < |s| && s[a] == t[i];
        var b :| 0 <= b < |s| && s[b] == t[j];
        assert a != b;
      }
    }
  }

  // ------------------------------------------------------------------
  // Input aggregation: first occurrence wins
  // ------------------------------------------------------------------

  /** The entries of `s`, each path only at its first occurrence. */
  function Dedup(s: Archive): Archive
  {
    if s == [] then []
    else
      var d := Dedup(s[..|s| - 1]);
      if s[|s| - 1].path in PathsOf(d) then d else d + [s[|s| - 1]]
  }

  /** One more entry: kept when its path is new to the de-duplicated prefix. */
  lemma DedupSnoc(s: Archive, e: Entry)
    ensures Dedup(s + [e]) == if e.path in PathsOf(Dedup(s)) then Dedup(s) else Dedup(s) + [e]
  {
    assert (s + [e])[..|s|] == s;
  }

  lemma FlattenSnoc(parts: seq<Archive>, a: Archive)
    ensures Flatten(parts + [a]) == Flatten(parts) + a
  {
    assert (parts + [a])[..|parts|] == parts;
  }

  /** The pool a run works on: all inputs in the order they were added, de-duplicated. */
  function Merge(inputs: seq<Archive>): Archive
  {
    Dedup(Flatten(inputs))
  }

  /** Appending to `b`, or dropping the last of `a`, keeps `a` a subsequence of `b`. */
  lemma {:induction false} SubseqExtend(a: Archive, b: Archive, x: Entry)
    requires IsSubseq(a, b)
    ensures IsSubseq(a, b + [x])
    ensures a != [] ==> IsSubseq(a[..|a| - 1], b)
    decreases |b|
  {
    if a != [] && b != [] {
      var a' := a[..|a| - 1];
      var b' := b[..|b| - 1];
      assert (b + [x])[..|b|] == b;
      if a[|a| - 1] == b[|b| - 1] {
        SubseqExtend(a', b', b[|b| - 1]);
        assert b' + [b[|b| - 1]] == b;
      } else {
        SubseqExtend(a, b', b[|b| - 1]);
        SubseqExtend(a', b', b[|b| - 1]);
        assert b' + [b[|b| - 1]] == b;
      }
    }
  }

  /**
   * De-duplication keeps every path of the input once, and the entry kept for
   * a path is the first entry of the input with that path; the kept entries
   * are in input order.
   */
  lemma {:induction false} DedupKeepsFirst(s: Archive)
    ensures UniquePaths(Dedup(s))
    ensures PathsOf(Dedup(s)) == PathsOf(s)
    ensures forall e :: e in Dedup(s) ==> First(s, e.path) == Some(e)
    ensures IsSubseq(Dedup(s), s)
  {
    DedupUnique(s);
    DedupPaths(s);
    DedupFirst(s);
    DedupSubseq(s);
  }

  lemma PathsOfSnoc(s: Archive, e: Entry)
    ensures PathsOf(s + [e]) == PathsOf(s) + {e.path}
  {
    PathsOfAppend(s, [e]);
    assert PathsOf([e]) == {e.path} by {
      assert [e][0] == e;
    }
  }

  lemma {:induction false} DedupPaths(s: Archive)
    ensures PathsOf(Dedup(s)) == PathsOf(s)
  {
    if s != [] {
      var init := s[..|s| - 1];
      var last := s[|s| - 1];
      DedupPaths(init);
      assert PathsOf(s) == PathsOf(init) + {last.path} by {
        assert s == init + [last];
        PathsOfSnoc(init, last);
      }
      if last.path !in PathsOf(Dedup(init)) {
        PathsOfSnoc(Dedup(init), last);
      }
    }
  }

  lemma {:induction false} DedupFirst(s: Archive)
    ensures forall e :: e in Dedup(s) ==> First(s, e.path) == Some(e)
  {
    if s != [] {
      var init := s[..|s| - 1];
      var last := s[|s| - 1];
      var d := Dedup(init);
      DedupFirst(init);
      forall e | e in Dedup(s) ensures First(s, e.path) == Some(e) {
        if e !in d {
          assert e == last;
          DedupPaths(init);
          FirstFound(init, last.path);
        }
      }
    }
  }

  lemma {:induction false} DedupUnique(s: Archive)
    ensures UniquePaths(Dedup(s))
  {
    if s != [] {
      var init := s[..|s| - 1];
      var last := s[|s| - 1];
      var d := Dedup(init);
      DedupUnique(init);
      if last.path !in PathsOf(d) {
        forall i, j | 0 <= i < j < |d + [last]| ensures (d + [last])[i].path != (d + [last])[j].path {
          if j == |d| {
            assert (d + [last])[i] in d;
          }
        }
      }
    }
  }

  lemma {:induction false} DedupSubseq(s: Archive)
    ensures IsSubseq(Dedup(s), s)
  {
    if s != [] {
      var init := s[..|s| - 1];
      var last := s[|s| - 1];
      var d := Dedup(init);
      DedupSubseq(init);
      if last.path in PathsOf(d) {
        SubseqExtend(d, init, last);
        assert s == init + [last];
      } else {
        assert (d + [last])[..|d|] == d;
      }
    }
  }

  /** An input without repeated paths passes through unchanged. */
  lemma {:induction false} DedupIdentity(s: Archive)
    requires UniquePaths(s)
    ensures Dedup(s) == s
  {
    if s != [] {
      var init := s[..|s| - 1];
      DedupIdentity(init);
      var last := s[|s| - 1];
      forall e | e in init ensures e.path != last.path {
        var i :| 0 <= i < |init| && init[i] == e;
        assert s[i].path != s[|s| - 1].path;
      }
    }
  }

  /** A single input with distinct paths is the pool as it is. */
  lemma MergeSingle(a: Archive)
    requires UniquePaths(a)
    ensures Merge([a]) == a
  {
    assert [a][..0] == [];
    assert Flatten([a]) == [] + a == a;
    DedupIdentity(a);
  }

  /**
   * When two inputs both hold a path, the pool holds it once, with the entry of
   * the input that was added first.
   */
  lemma MergeFirstInputWins(a: Archive, b: Archive, p: string)
    requires p in PathsOf(a)
    ensures p in PathsOf(Merge([a, b]))
    ensures forall e :: e in Merge([a, b]) && e.path == p ==> Some(e) == First(a, p)
  {
    assert [a, b][..1] == [a];
    assert [a][..0] == [];
    assert Flatten([a]) == [] + a == a;
    assert Flatten([a, b]) == a + b;
    DedupKeepsFirst(a + b);
    PathsOfAppend(a, b);
    FirstFound(a, p);
    FirstAppend(a, b, p);
  }

  // ------------------------------------------------------------------
  // The main-class list
  // ------------------------------------------------------------------

  /** The lines of the list file that are not blank, in file order. */
  function ParseList(text: string): seq<string>
  {
    NonBlank(Text.SplitOn(text, '\n'))
  }

  function NonBlank(lines: seq<string>): seq<string>
  {
    if lines == [] then []
    else NonBlank(lines[..|lines| - 1]) + (if lines[|lines| - 1] == "" then [] else [lines[|lines| - 1]])
  }

  /** A list file: every name followed by a newline. */
  function ListText(names: seq<string>): string
  {
    if names == [] then "" else names[0] + "\n" + ListText(names[1..])
  }

  lemma {:induction false} SplitListText(names: seq<string>)
    requires forall i :: 0 <= i < |names| ==> '\n' !in names[i]
    ensures Text.SplitOn(ListText(names), '\n') == names + [""]
  {
    if names != [] {
      SplitListText(names[1..]);
      Text.SplitOnFieldThen(names[0], '\n', ListText(names[1..]));
      assert names[0] + "\n" + ListText(names[1..]) == names[0] + ['\n'] + ListText(names[1..]);
      assert names == [names[0]] + names[1..];
    }
  }

  lemma {:induction false} NonBlankKeeps(lines: seq<string>)
    requires forall i :: 0 <= i < |lines| ==> lines[i] != ""
    ensures NonBlank(lines) == lines
  {
    if lines != [] {
      NonBlankKeeps(lines[..|lines| - 1]);
    }
  }

  /** Writing names one per line and parsing the file gives the names back. */
  lemma ParseListText(names: seq<string>)
    requires forall i :: 0 <= i < |names| ==> names[i] != "" && '\n' !in names[i]
    ensures ParseList(ListText(names)) == names
  {
    SplitListText(names);
    NonBlankKeeps(names);
    assert (names + [""])[..|names|] == names;
  }

  function NotListed(list: seq<string>): string -> bool
  {
    p => p !in list
  }

  /** The pool entry for path `p`, as a sequence of at most one entry. */
  function Found(pool: Archive, p: string): Archive
  {
    match First(pool, p)
    case Some(e) => [e]
    case None => []
  }

  /**
   * The entries pulled into the first output: for each listed path, in list
   * order, its pool entry; paths listed twice or missing from the pool add nothing.
   */
  function Picked(pool: Archive, list: seq<string>): Archive
  {
    if list == [] then []
    else
      var init := list[..|list| - 1];
      var p := list[|list| - 1];
      Picked(pool, init) + (if p in init then [] else Found(pool, p))
  }

  /** Index of the first occurrence of `p` in `list`. */
  function IndexOf(list: seq<string>, p: string): nat
    requires p in list
    ensures IndexOf(list, p) < |list| && list[IndexOf(list, p)] == p
  {
    if list[0] == p then 0 else 1 + IndexOf(list[1..], p)
  }

  lemma IndexOfPrefix(list: seq<string>, n: nat, p: string)
    requires n <= |list| && p in list[..n]
    ensures IndexOf(list, p) == IndexOf(list[..n], p)
  {
    if list[0] != p {
      assert list[..n][1..] == list[1..][..n - 1];
      IndexOfPrefix(list[1..], n - 1, p);
    }
  }

  lemma IndexOfAt(list: seq<string>, n: nat)
    requires n < |list| && list[n] !in list[..n]
    ensures IndexOf(list, list[n]) == n
  {
    if n > 0 {
      assert list[0] in list[..n];
      assert list[1..][..n - 1] == list[..n][1..];
      IndexOfAt(list[1..], n - 1);
    }
  }

  /**
   * The pulled entries come from the pool, carry listed paths in list order
   * (so no path twice), and every pool entry with a listed path is pulled.
   */
  lemma {:induction false} PickedInListOrder(pool: Archive, list: seq<string>)
    requires UniquePaths(pool)
    ensures forall e :: e in Picked(pool, list) ==> e in pool && e.path in list
    ensures forall i, j :: 0 <= i < j < |Picked(pool, list)| ==>
      IndexOf(list, Picked(pool, list)[i].path) < IndexOf(list, Picked(pool, list)[j].path)
    ensures forall e :: e in pool && e.path in list ==> e in Picked(pool, list)
  {
    PickedMembers(pool, list);
    if list != [] {
      var init := list[..|list| - 1];
      var p := list[|list| - 1];
      var a := Picked(pool, init);
      PickedInListOrder(pool, init);
      var extra := if p in init then [] else Found(pool, p);
      var t := a + extra;
      assert Picked(pool, list) == t;
      forall e | e in a ensures IndexOf(list, e.path) == IndexOf(init, e.path) {
        IndexOfPrefix(list, |list| - 1, e.path);
      }
      forall i, j | 0 <= i < j < |t| ensures IndexOf(list, t[i].path) < IndexOf(list, t[j].path) {
        assert t[i] == a[i] && a[i] in a;
        if j < |a| {
          assert t[j] == a[j] && a[j] in a;
        } else {
          FirstFound(pool, p);
          IndexOfAt(list, |list| - 1);
        }
      }
    }
  }

  /** The picked entries are exactly the pool entries whose path is listed. */
  lemma {:induction false} PickedMembers(pool: Archive, list: seq<string>)
    requires UniquePaths(pool)
    ensures forall e :: e in Picked(pool, list) ==> e in pool && e.path in list
    ensures forall e :: e in pool && e.path in list ==> e in Picked(pool, list)
  {
    if list != [] {
      var init := list[..|list| - 1];
      var p := list[|list| - 1];
      var a := Picked(pool, init);
      PickedMembers(pool, init);
      var extra := if p in init then [] else Found(pool, p);
      FirstFound(pool, p);
      assert Picked(pool, list) == a + extra;
      forall e | e in pool && e.path in list ensures e in a + extra {
        if e.path != p || p in init {
          assert e.path in init;
        } else {
          var f := First(pool, p).value;
          var i :| 0 <= i < |pool| && pool[i] == e;
          var j :| 0 <= j < |pool| && pool[j] == f;
          assert i == j;
        }
      }
    }
  }

  lemma LastPathIsNew(s: Archive)
    requires UniquePaths(s) && s != []
    ensures UniquePaths(s[..|s| - 1])
    ensures s[|s| - 1].path !in PathsOf(s[..|s| - 1])
  {
    var init := s[..|s| - 1];
    forall e | e in init ensures e.path != s[|s| - 1].path {
      var i :| 0 <= i < |init| && init[i] == e;
      assert s[i].path != s[|s| - 1].path;
    }
  }

  lemma SplitLast(s: Archive)
    requires s != []
    ensures s == s[..|s| - 1] + [s[|s| - 1]]
  {
  }

  /** Counting one more entry: it joins either the kept entries or the found ones. */
  lemma CountsSnoc(kept: Archive, found: Archive, init: Archive, kept': Archive, found': Archive, last: Entry)
    requires multiset(kept) + multiset(found) == multiset(init)
    requires (kept' == kept && found == [] && found' == [last]) || (kept' == kept + [last] && found' == found)
    ensures multiset(kept') + multiset(found') == multiset(init + [last])
  {
  }

  /** How one more entry changes what is kept and what is found for path `p`. */
  lemma SnocParts(s: Archive, p: string)
    requires s != []
    ensures var init, last := s[..|s| - 1], s[|s| - 1];
      && (last.path == p && First(init, p).None? ==>
            Found(s, p) == [last] && Select(s, NotListed([p])) == Select(init, NotListed([p])))
      && (last.path != p ==>
            Found(s, p) == Found(init, p) && Select(s, NotListed([p])) == Select(init, NotListed([p])) + [last])
  {
  }

  lemma TakeStep(s: Archive, p: string)
    requires s != []
    requires s[|s| - 1].path == p ==> p !in PathsOf(s[..|s| - 1])
    requires multiset(Select(s[..|s| - 1], NotListed([p]))) + multiset(Found(s[..|s| - 1], p))
      == multiset(s[..|s| - 1])
    ensures multiset(Select(s, NotListed([p]))) + multiset(Found(s, p)) == multiset(s)
  {
    var init := s[..|s| - 1];
    var last := s[|s| - 1];
    var keep := NotListed([p]);
    if last.path == p {
      FirstFound(init, p);
    }
    SnocParts(s, p);
    CountsSnoc(Select(init, keep), Found(init, p), init, Select(s, keep), Found(s, p), last);
    SplitLast(s);
  }

  /** Removing the entries with one path from a unique-path pool removes exactly the found one. */
  lemma {:induction false} TakeOne(s: Archive, p: string)
    requires UniquePaths(s)
    ensures multiset(Select(s, NotListed([p]))) + multiset(Found(s, p)) == multiset(s)
  {
    if s != [] {
      LastPathIsNew(s);
      TakeOne(s[..|s| - 1], p);
      TakeStep(s, p);
    }
  }

  /** Pulling the list moves entries out of the pool and neither loses nor adds one. */
  lemma {:induction false} PickedPermutation(pool: Archive, list: seq<string>)
    requires UniquePaths(pool)
    ensures multiset(Picked(pool, list)) + multiset(Select(pool, NotListed(list))) == multiset(pool)
  {
    if list == [] {
      SelectAll(pool, NotListed(list));
    } else {
      var init := list[..|list| - 1];
      var p := list[|list| - 1];
      PickedPermutation(pool, init);
      var rest := Select(pool, NotListed(init));
      UniqueSelect(pool, NotListed(init));
      TakeOne(rest, p);
      SelectSelect(pool, NotListed(init), NotListed([p]), NotListed(list));
      FirstSelect(pool, NotListed(init), p);
      if p in init {
        SelectSame(pool, NotListed(init), NotListed(list));
      }
    }
  }

  // ------------------------------------------------------------------
  // Top-level directories and balancing
  // ------------------------------------------------------------------

  /** The first path segment: the path up to its first '/', or all of it. */
  function TopDir(path: string): (r: string)
    ensures |r| <= |path| && r == path[..|r|]
    ensures '/' !in r
    ensures r == path || path[|r|] == '/'
  {
    if path == [] || path[0] == '/' then [] else [path[0]] + TopDir(path[1..])
  }

  /** A path built as directory "/" rest belongs to that directory. */
  lemma {:induction false} TopDirJoin(dir: string, rest: string)
    requires '/' !in dir
    ensures TopDir(dir + "/" + rest) == dir
  {
    if dir != [] {
      assert (dir + "/" + rest)[1..] == dir[1..] + "/" + rest;
      TopDirJoin(dir[1..], rest);
    }
  }

  function InGroup(key: string): string -> bool
  {
    p => TopDir(p) == key
  }

  /** The top-level directories of `s`, each once, in first-seen order. */
  function GroupKeys(s: Archive): seq<string>
  {
    if s == [] then []
    else
      var keys := GroupKeys(s[..|s| - 1]);
      var k := TopDir(s[|s| - 1].path);
      if k in keys then keys else keys + [k]
  }

  /** A top-level group, weighed by its number of entries. */
  datatype Group = Group(key: string, size: nat)

  function Groups(s: Archive): seq<Group>
  {
    var keys := GroupKeys(s);
    seq(|keys|, i requires 0 <= i < |keys| => Group(keys[i], |Select(s, InGroup(keys[i]))|))
  }

  /** Inserts `g` before the first group that is not larger (stable for equal sizes). */
  function InsertBySize(g: Group, sorted: seq<Group>): seq<Group>
  {
    if sorted == [] || sorted[0].size <= g.size then [g] + sorted
    else [sorted[0]] + InsertBySize(g, sorted[1..])
  }

  /** Groups by decreasing size; equal sizes keep their first-seen order. */
  function SortBySize(gs: seq<Group>): seq<Group>
  {
    if gs == [] then [] else InsertBySize(gs[0], SortBySize(gs[1..]))
  }

  predicate DescendingBySize(gs: seq<Group>)
  {
    forall i, j :: 0 <= i < j < |gs| ==> gs[i].size >= gs[j].size
  }

  lemma {:induction false} InsertBySizeKeeps(g: Group, sorted: seq<Group>)
    ensures multiset(InsertBySize(g, sorted)) == multiset(sorted) + multiset{g}
  {
    if sorted != [] && sorted[0].size > g.size {
      InsertBySizeKeeps(g, sorted[1..]);
      assert sorted == [sorted[0]] + sorted[1..];
    }
  }

  lemma PrependLargest(h: Group, r: seq<Group>)
    requires DescendingBySize(r)
    requires forall x :: x in r ==> h.size >= x.size
    ensures DescendingBySize([h] + r)
  {
    var t := [h] + r;
    forall i, j | 0 <= i < j < |t| ensures t[i].size >= t[j].size {
      assert t[j] == r[j - 1] && r[j - 1] in r;
      if i > 0 {
        assert t[i] == r[i - 1];
      }
    }
  }

  lemma {:induction false} InsertBySizeSorted(g: Group, sorted: seq<Group>)
    requires DescendingBySize(sorted)
    ensures DescendingBySize(InsertBySize(g, sorted))
    ensures multiset(InsertBySize(g, sorted)) == multiset(sorted) + multiset{g}
  {
    InsertBySizeKeeps(g, sorted);
    if sorted != [] && sorted[0].size > g.size {
      var h := sorted[0];
      InsertBySizeSorted(g, sorted[1..]);
      var r := InsertBySize(g, sorted[1..]);
      forall x | x in r ensures h.size >= x.size {
        assert x in multiset(r);
        if x != g {
          assert x in multiset(sorted[1..]);
          var i :| 0 <= i < |sorted[1..]| && sorted[1..][i] == x;
          assert sorted[i + 1] == x;
        }
      }
      PrependLargest(h, r);
    } else {
      forall x | x in sorted ensures g.size >= x.size {
        var i :| 0 <= i < |sorted| && sorted[i] == x;
        assert sorted[0].size >= sorted[i].size;
      }
      PrependLargest(g, sorted);
    }
  }

  /** Sorting orders the groups by size and keeps every group. */
  lemma {:induction false} SortBySizeSorted(gs: seq<Group>)
    ensures DescendingBySize(SortBySize(gs))
    ensures multiset(SortBySize(gs)) == multiset(gs)
  {
    if gs != [] {
      var rest := SortBySize(gs[1..]);
      assert SortBySize(gs) == InsertBySize(gs[0], rest);
      SortBySizeSorted(gs[1..]);
      InsertBySizeSorted(gs[0], rest);
      assert multiset(gs) == multiset(gs[1..]) + multiset{gs[0]} by {
        assert gs == [gs[0]] + gs[1..];
      }
    }
  }

  /** The groups of size `s`, in order. */
  function OfSize(gs: seq<Group>, s: nat): seq<Group>
  {
    if gs == [] then [] else (if gs[0].size == s then [gs[0]] else []) + OfSize(gs[1..], s)
  }

  /** Inserting a group puts it ahead of every group of its own size and moves no other group of any size. */
  lemma {:induction false} InsertBySizeStable(g: Group, sorted: seq<Group>, s: nat)
    ensures OfSize(InsertBySize(g, sorted), s) == (if g.size == s then [g] else []) + OfSize(sorted, s)
  {
    if sorted == [] || sorted[0].size <= g.size {
      OfSizeCons(g, sorted, s);
    } else {
      var h := sorted[0];
      var r := InsertBySize(g, sorted[1..]);
      var rest := OfSize(sorted[1..], s);
      InsertBySizeStable(g, sorted[1..], s);
      OfSizeCons(h, r, s);
      OfSizeCons(h, sorted[1..], s);
      assert sorted == [h] + sorted[1..];
      if g.size == s {
        assert OfSize(InsertBySize(g, sorted), s) == [g] + rest;
        assert OfSize(sorted, s) == rest;
      } else {
        assert OfSize(InsertBySize(g, sorted), s) == (if h.size == s then [h] else []) + rest;
        assert [] + OfSize(sorted, s) == OfSize(sorted, s);
      }
    }
  }

  lemma OfSizeCons(h: Group, r: seq<Group>, s: nat)
    ensures OfSize([h] + r, s) == (if h.size == s then [h] else []) + OfSize(r, s)
  {
    assert ([h] + r)[1..] == r;
  }

  /** Sorting is stable: the groups of any one size keep their first-seen order. */
  lemma {:induction false} SortBySizeStable(gs: seq<Group>, s: nat)
    ensures OfSize(SortBySize(gs), s) == OfSize(gs, s)
  {
    if gs != [] {
      SortBySizeStable(gs[1..], s);
      InsertBySizeStable(gs[0], SortBySize(gs[1..]), s);
    }
  }

  /** The least-loaded slot among slots first..|loads|-1; the lowest such index on ties. */
  function LeastLoaded(loads: seq<nat>, first: nat): (m: nat)
    requires first < |loads|
    ensures first <= m < |loads|
    ensures forall j :: first <= j < |loads| ==> loads[m] <= loads[j]
    ensures forall j :: first <= j < m ==> loads[m] < loads[j]
    decreases |loads|
  {
    if |loads| == first + 1 then first
    else
      var m := LeastLoaded(loads[..|loads| - 1], first);
      if loads[|loads| - 1] < loads[m] then |loads| - 1 else m
  }

  /** Each group in turn goes to the slot that is least loaded at that point. */
  function Greedy(gs: seq<Group>, loads: seq<nat>, first: nat): (assign: map<string, nat>)
    requires first < |loads|
    ensures forall k :: k in assign ==> first <= assign[k] < |loads|
    ensures assign.Keys == set g | g in gs :: g.key
  {
    if gs == [] then map[]
    else
      var m := LeastLoaded(loads, first);
      var rest := Greedy(gs[1..], loads[m := loads[m] + gs[0].size], first);
      assert forall g :: g in gs <==> g == gs[0] || g in gs[1..];
      rest[gs[0].key := m]
  }

  /** The loads after one more group goes to the least-loaded slot. */
  function Place(loads: seq<nat>, first: nat, size: nat): (r: seq<nat>)
    requires first < |loads|
    ensures |r| == |loads|
  {
    var m := LeastLoaded(loads, first);
    loads[m := loads[m] + size]
  }

  /** The loads after the greedy rule has placed every group of `gs`, in order. */
  function LoadsAfter(gs: seq<Group>, loads: seq<nat>, first: nat): (r: seq<nat>)
    requires first < |loads|
    ensures |r| == |loads|
  {
    if gs == [] then loads else LoadsAfter(gs[1..], Place(loads, first, gs[0].size), first)
  }

  predicate DistinctKeys(gs: seq<Group>)
  {
    forall i, j :: 0 <= i < j < |gs| ==> gs[i].key != gs[j].key
  }

  /**
   * Each group goes to the slot that is least loaded once the groups before it
   * have been placed.
   */
  lemma {:induction false} GreedyPicksLeastLoaded(gs: seq<Group>, loads: seq<nat>, first: nat, i: nat)
    requires first < |loads| && i < |gs| && DistinctKeys(gs)
    ensures gs[i].key in Greedy(gs, loads, first)
    ensures Greedy(gs, loads, first)[gs[i].key] == LeastLoaded(LoadsAfter(gs[..i], loads, first), first)
  {
    if i == 0 {
      GreedyUnfold(gs, loads, first);
      assert gs[..0] == [];
    } else {
      var next := Place(loads, first, gs[0].size);
      DistinctTail(gs);
      GreedyPicksLeastLoaded(gs[1..], next, first, i - 1);
      assert gs[1..][i - 1] == gs[i];
      assert gs[i].key != gs[0].key;
      GreedyUnfold(gs, loads, first);
      LoadsAfterPrefix(gs, loads, first, i);
    }
  }

  lemma GreedyUnfold(gs: seq<Group>, loads: seq<nat>, first: nat)
    requires first < |loads| && gs != []
    ensures Greedy(gs, loads, first)
      == Greedy(gs[1..], Place(loads, first, gs[0].size), first)[gs[0].key := LeastLoaded(loads, first)]
  {
    var m := LeastLoaded(loads, first);
    var next := loads[m := loads[m] + gs[0].size];
    assert Place(loads, first, gs[0].size) == next;
    assert Greedy(gs, loads, first) == Greedy(gs[1..], next, first)[gs[0].key := m];
  }

  lemma DistinctTail(gs: seq<Group>)
    requires gs != [] && DistinctKeys(gs)
    ensures DistinctKeys(gs[1..])
  {
    forall a, b | 0 <= a < b < |gs[1..]| ensures gs[1..][a].key != gs[1..][b].key {
      assert gs[1..][a] == gs[a + 1] && gs[1..][b] == gs[b + 1];
    }
  }

  lemma LoadsAfterPrefix(gs: seq<Group>, loads: seq<nat>, first: nat, i: nat)
    requires first < |loads| && 0 < i <= |gs|
    ensures LoadsAfter(gs[..i], loads, first) == LoadsAfter(gs[1..][..i - 1], Place(loads, first, gs[0].size), first)
  {
    assert gs[..i][1..] == gs[1..][..i - 1];
    assert gs[..i][0] == gs[0];
  }

  /** No slot of first..|loads|-1 carries more than `c` over another. */
  predicate WithinSpread(loads: seq<nat>, first: nat, c: nat)
  {
    forall i, j :: first <= i < |loads| && first <= j < |loads| ==> loads[i] <= loads[j] + c
  }

  lemma PlaceKeepsSpread(loads: seq<nat>, first: nat, size: nat, c: nat)
    requires first < |loads| && WithinSpread(loads, first, c) && size <= c
    ensures WithinSpread(Place(loads, first, size), first, c)
  {
    var m := LeastLoaded(loads, first);
    var r := Place(loads, first, size);
    forall i, j | first <= i < |r| && first <= j < |r| ensures r[i] <= r[j] + c {
      assert loads[j] <= r[j];
      if i == m {
        assert loads[m] <= loads[j];
      } else {
        assert r[i] == loads[i];
      }
    }
  }

  /** Placing groups no larger than `c` keeps the slots within `c` of each other. */
  lemma {:induction false} GreedyKeepsSpread(gs: seq<Group>, loads: seq<nat>, first: nat, c: nat)
    requires first < |loads| && WithinSpread(loads, first, c)
    requires forall g :: g in gs ==> g.size <= c
    ensures WithinSpread(LoadsAfter(gs, loads, first), first, c)
  {
    if gs != [] {
      PlaceKeepsSpread(loads, first, gs[0].size, c);
      assert forall g :: g in gs[1..] ==> g in gs;
      GreedyKeepsSpread(gs[1..], Place(loads, first, gs[0].size), first, c);
    }
  }

  /** The balancing rule: the groups of `code`, largest first, over slots first..n-1. */
  function Balance(code: Archive, first: nat, n: nat): map<string, nat>
    requires first < n
  {
    Greedy(SortBySize(Groups(code)), seq(n, _ => 0), first)
  }

  predicate InRange(assign: map<string, nat>, first: nat, n: nat)
  {
    first < n && forall k :: k in assign ==> first <= assign[k] < n
  }

  /** The slot of a top-level directory; first when the rule did not place it. */
  function SlotOf(assign: map<string, nat>, first: nat, key: string): nat
  {
    if key in assign then assign[key] else first
  }

  function InSlot(assign: map<string, nat>, first: nat, k: nat): string -> bool
  {
    p => SlotOf(assign, first, TopDir(p)) == k
  }

  function BelowSlot(assign: map<string, nat>, first: nat, m: nat): string -> bool
  {
    p => SlotOf(assign, first, TopDir(p)) < m
  }

  /** Every group of the code entries is placed by the balancing rule, within range. */
  lemma BalancePlacesEveryGroup(code: Archive, first: nat, n: nat)
    requires first < n
    ensures InRange(Balance(code, first, n), first, n)
    ensures forall k :: k in GroupKeys(code) ==> k in Balance(code, first, n)
  {
    var gs := Groups(code);
    SortBySizeSorted(gs);
    forall k | k in GroupKeys(code) ensures k in Balance(code, first, n) {
      var i :| 0 <= i < |GroupKeys(code)| && GroupKeys(code)[i] == k;
      assert gs[i] in multiset(SortBySize(gs));
    }
  }

  /**
   * The balancing rule leaves the output slots within one group of each other:
   * no slot holds more than the largest group over any other.
   */
  lemma BalanceSpread(code: Archive, first: nat, n: nat, c: nat)
    requires first < n
    requires forall g :: g in Groups(code) ==> g.size <= c
    ensures WithinSpread(LoadsAfter(SortBySize(Groups(code)), seq(n, _ => 0), first), first, c)
  {
    var gs := Groups(code);
    SortBySizeSorted(gs);
    forall g | g in SortBySize(gs) ensures g.size <= c {
      assert g in multiset(SortBySize(gs));
    }
    GreedyKeepsSpread(SortBySize(gs), seq(n, _ => 0), first, c);
  }

  // ------------------------------------------------------------------
  // The plan
  // ------------------------------------------------------------------

  function NotResource(isResource: string -> bool): string -> bool
  {
    p => !isResource(p)
  }

  /** Paths left for grouping: not listed, and not resources when there is a resource output. */
  function Unlisted(names: seq<string>, withResources: bool, isResource: string -> bool): string -> bool
  {
    p => p !in names && !(withResources && isResource(p))
  }

  /** The first slot open to code groups: slot 0 is kept for the list when there is another. */
  function FirstCodeSlot(hasList: bool, n: nat): nat
  {
    if hasList && n > 1 then 1 else 0
  }

  /** Slot k: the listed entries (slot 0 only), then the code entries placed in k, in pool order. */
  function Shards(listed: Archive, code: Archive, assign: map<string, nat>, first: nat, n: nat): seq<Archive>
  {
    seq(n, k requires 0 <= k < n => (if k == 0 then listed else []) + Select(code, InSlot(assign, first, k)))
  }

  /** Where each entry of the pool goes, before timestamps are stamped. */
  datatype Plan = Plan(listed: Archive, shards: seq<Archive>, resources: Archive)

  function ListNames(list: Option<seq<string>>): seq<string>
  {
    if list.Some? then list.value else []
  }

  /** The entries left for grouping: neither listed nor routed to the resource output. */
  function CodeOf(pool: Archive, list: Option<seq<string>>, withResources: bool, isResource: string -> bool): Archive
  {
    var rest := Select(pool, NotListed(ListNames(list)));
    if withResources then Select(rest, NotResource(isResource)) else rest
  }

  /** The slot of every top-level directory of the code entries. */
  function AssignOf(pool: Archive, list: Option<seq<string>>, n: nat, withResources: bool, isResource: string -> bool): map<string, nat>
    requires n >= 1
  {
    Balance(CodeOf(pool, list, withResources, isResource), FirstCodeSlot(list.Some?, n), n)
  }

  function PlanOf(pool: Archive, list: Option<seq<string>>, n: nat, withResources: bool, isResource: string -> bool): Plan
    requires n >= 1
  {
    var names := ListNames(list);
    var listed := Picked(pool, names);
    var rest := Select(pool, NotListed(names));
    var resources := if withResources then Select(rest, isResource) else [];
    var code := CodeOf(pool, list, withResources, isResource);
    var first := FirstCodeSlot(list.Some?, n);
    Plan(listed, Shards(listed, code, Balance(code, first, n), first, n), resources)
  }

  /** Appending a part to a sequence that holds `listed` and `below` gives one that holds `listed` and `below'`. */
  lemma CountsAppend(prev: Archive, part: Archive, listed: Archive, below: Archive, below': Archive)
    requires multiset(prev) == multiset(listed) + multiset(below)
    requires multiset(below') == multiset(below) + multiset(part)
    ensures multiset(prev + part) == multiset(listed) + multiset(below')
  {
  }

  /** Flattening a prefix one part longer appends that part. */
  lemma FlattenPrefix(parts: seq<Archive>, m: nat)
    requires 1 <= m <= |parts|
    ensures Flatten(parts[..m]) == Flatten(parts[..m - 1]) + parts[m - 1]
  {
    assert parts[..m][..m - 1] == parts[..m - 1];
  }

  lemma {:induction false} ShardsPrefix(listed: Archive, code: Archive, assign: map<string, nat>, first: nat, n: nat, m: nat)
    requires 1 <= m <= n
    ensures multiset(Flatten(Shards(listed, code, assign, first, n)[..m]))
      == multiset(listed) + multiset(Select(code, BelowSlot(assign, first, m)))
  {
    var ss := Shards(listed, code, assign, first, n);
    FlattenPrefix(ss, m);
    if m == 1 {
      assert ss[..0] == [];
      assert ss[0] == listed + Select(code, InSlot(assign, first, 0));
      SelectSame(code, BelowSlot(assign, first, 1), InSlot(assign, first, 0));
    } else {
      ShardsPrefix(listed, code, assign, first, n, m - 1);
      var part := Select(code, InSlot(assign, first, m - 1));
      assert ss[m - 1] == part;
      SelectPartition(code, BelowSlot(assign, first, m), BelowSlot(assign, first, m - 1), InSlot(assign, first, m - 1));
      CountsAppend(Flatten(ss[..m - 1]), part, listed, Select(code, BelowSlot(assign, first, m - 1)),
                   Select(code, BelowSlot(assign, first, m)));
    }
  }

  /** All shards together hold the listed and the code entries, each exactly once. */
  lemma ShardsPermutation(listed: Archive, code: Archive, assign: map<string, nat>, first: nat, n: nat)
    requires InRange(assign, first, n)
    ensures multiset(Flatten(Shards(listed, code, assign, first, n))) == multiset(listed) + multiset(code)
  {
    ShardsPrefix(listed, code, assign, first, n, n);
    assert Shards(listed, code, assign, first, n)[..n] == Shards(listed, code, assign, first, n);
    SelectAll(code, BelowSlot(assign, first, n));
  }

  function Everything(): string -> bool
  {
    p => true
  }

  /** The unlisted entries split into the resource output and the code entries. */
  lemma RestPartition(rest: Archive, withResources: bool, isResource: string -> bool)
    ensures multiset(rest)
      == multiset(if withResources then Select(rest, isResource) else [])
       + multiset(if withResources then Select(rest, NotResource(isResource)) else rest)
  {
    if withResources {
      SelectAll(rest, Everything());
      SelectPartition(rest, Everything(), isResource, NotResource(isResource));
    }
  }

  /**
   * All outputs of a run together are a permutation of the de-duplicated
   * pool, so no path appears twice across the outputs.
   */
  lemma PlanPermutation(pool: Archive, list: Option<seq<string>>, n: nat, withResources: bool, isResource: string -> bool)
    requires n >= 1
    requires UniquePaths(pool)
    ensures multiset(Flatten(PlanOf(pool, list, n, withResources, isResource).shards)
                     + PlanOf(pool, list, n, withResources, isResource).resources) == multiset(pool)
    ensures UniquePaths(Flatten(PlanOf(pool, list, n, withResources, isResource).shards)
                        + PlanOf(pool, list, n, withResources, isResource).resources)
  {
    var plan := PlanOf(pool, list, n, withResources, isResource);
    var names := ListNames(list);
    var code := CodeOf(pool, list, withResources, isResource);
    var first := FirstCodeSlot(list.Some?, n);
    BalancePlacesEveryGroup(code, first, n);
    ShardsPermutation(plan.listed, code, Balance(code, first, n), first, n);
    PickedPermutation(pool, names);
    RestPartition(Select(pool, NotListed(names)), withResources, isResource);
    UniqueUnderPermutation(pool, Flatten(plan.shards) + plan.resources);
  }

  /** The code entries are the pool entries that are neither listed nor resources, in pool order. */
  lemma CodeIsSelection(pool: Archive, list: Option<seq<string>>, withResources: bool, isResource: string -> bool)
    ensures CodeOf(pool, list, withResources, isResource) == Select(pool, Unlisted(ListNames(list), withResources, isResource))
  {
    var names := ListNames(list);
    if withResources {
      SelectSelect(pool, NotListed(names), NotResource(isResource), Unlisted(names, withResources, isResource));
    } else {
      SelectSame(pool, NotListed(names), Unlisted(names, withResources, isResource));
    }
  }

  /** Where slot k's own entries start: after the listed entries in slot 0, at once elsewhere. */
  function CodeStart(plan: Plan, k: nat): nat
  {
    if k == 0 then |plan.listed| else 0
  }

  /** Unfolds PlanOf for slot k: the listed prefix, then the code entries assigned to k. */
  lemma ShardShape(pool: Archive, list: Option<seq<string>>, n: nat, withResources: bool, isResource: string -> bool, k: nat)
    requires 1 <= n && k < n
    ensures var plan := PlanOf(pool, list, n, withResources, isResource);
      var assign := AssignOf(pool, list, n, withResources, isResource);
      var first := FirstCodeSlot(list.Some?, n);
      && |plan.shards| == n
      && plan.shards[k] == (if k == 0 then plan.listed else []) + plan.shards[k][CodeStart(plan, k)..]
      && plan.shards[k][CodeStart(plan, k)..]
         == Select(CodeOf(pool, list, withResources, isResource), InSlot(assign, first, k))
  {
  }

  /**
   * Order: after the listed entries, every shard holds entries of the pool in
   * the pool's order (a subsequence of the de-duplicated input).
   */
  lemma PlanKeepsOrder(pool: Archive, list: Option<seq<string>>, n: nat, withResources: bool, isResource: string -> bool, k: nat)
    requires 1 <= n && k < n
    ensures var plan := PlanOf(pool, list, n, withResources, isResource);
      IsSubseq(plan.shards[k][CodeStart(plan, k)..], pool)
  {
    var names := ListNames(list);
    var assign := AssignOf(pool, list, n, withResources, isResource);
    var first := FirstCodeSlot(list.Some?, n);
    var f := Unlisted(names, withResources, isResource);
    var g := InSlot(assign, first, k);
    ShardShape(pool, list, n, withResources, isResource, k);
    CodeIsSelection(pool, list, withResources, isResource);
    SelectSelect(pool, f, g, p => f(p) && g(p));
    SelectIsSubseq(pool, p => f(p) && g(p));
  }

  /**
   * Group atomicity: two entries that are not listed and share a top-level
   * directory are in the same shard.
   */
  lemma PlanKeepsGroupsWhole(pool: Archive, list: Option<seq<string>>, n: nat, withResources: bool, isResource: string -> bool,
                             k1: nat, i: nat, k2: nat, j: nat)
    requires 1 <= n && k1 < n && k2 < n
    requires var plan := PlanOf(pool, list, n, withResources, isResource);
      && CodeStart(plan, k1) <= i < |plan.shards[k1]|
      && CodeStart(plan, k2) <= j < |plan.shards[k2]|
      && TopDir(plan.shards[k1][i].path) == TopDir(plan.shards[k2][j].path)
    ensures k1 == k2
  {
    var plan := PlanOf(pool, list, n, withResources, isResource);
    var code := CodeOf(pool, list, withResources, isResource);
    var assign := AssignOf(pool, list, n, withResources, isResource);
    var first := FirstCodeSlot(list.Some?, n);
    ShardShape(pool, list, n, withResources, isResource, k1);
    ShardShape(pool, list, n, withResources, isResource, k2);
    SelectMembers(code, InSlot(assign, first, k1));
    SelectMembers(code, InSlot(assign, first, k2));
    var o1 := CodeStart(plan, k1);
    var o2 := CodeStart(plan, k2);
    assert plan.shards[k1][i] in plan.shards[k1][o1..];
    assert plan.shards[k2][j] in plan.shards[k2][o2..];
  }

  /**
   * Priority: slot 0 starts with the listed entries; when there is a list and
   * another output, slot 0 holds the listed entries and nothing else.
   */
  lemma PlanListedFirst(pool: Archive, list: Option<seq<string>>, n: nat, withResources: bool, isResource: string -> bool)
    requires n >= 1
    ensures var plan := PlanOf(pool, list, n, withResources, isResource);
      && plan.listed == Picked(pool, ListNames(list))
      && plan.shards[0][..|plan.listed|] == plan.listed
      && (list.Some? && n > 1 ==> plan.shards[0] == plan.listed)
  {
    var plan := PlanOf(pool, list, n, withResources, isResource);
    var code := CodeOf(pool, list, withResources, isResource);
    var assign := AssignOf(pool, list, n, withResources, isResource);
    var first := FirstCodeSlot(list.Some?, n);
    ShardShape(pool, list, n, withResources, isResource, 0);
    if list.Some? && n > 1 {
      BalancePlacesEveryGroup(code, first, n);
      SelectNone(code, InSlot(assign, first, 0));
    }
  }

  /**
   * Resource routing: with a resource output, it receives exactly the unlisted
   * pool entries the predicate accepts, in pool order; without one it stays empty.
   */
  lemma PlanResources(pool: Archive, list: Option<seq<string>>, n: nat, withResources: bool, isResource: string -> bool)
    requires n >= 1
    ensures var plan := PlanOf(pool, list, n, withResources, isResource);
      && (!withResources ==> plan.resources == [])
      && (withResources ==>
            (forall e :: e in plan.resources <==> e in pool && e.path !in ListNames(list) && isResource(e.path))
            && IsSubseq(plan.resources, pool))
  {
    var names := ListNames(list);
    var rest := Select(pool, NotListed(names));
    if withResources {
      SelectMembers(pool, NotListed(names));
      SelectMembers(rest, isResource);
      var f := NotListed(names);
      SelectSelect(pool, f, isResource, p => f(p) && isResource(p));
      SelectIsSubseq(pool, p => f(p) && isResource(p));
    }
  }

  lemma InSuffix(t: Archive, start: nat, i: nat)
    requires start <= i < |t|
    ensures t[i] in t[start..]
  {
    assert t[i] == t[start..][i - start];
  }

  /** With a resource output, no shard holds a resource entry after its listed part. */
  lemma PlanShardsHoldNoResources(pool: Archive, list: Option<seq<string>>, n: nat, isResource: string -> bool, k: nat, i: nat)
    requires 1 <= n && k < n
    requires var plan := PlanOf(pool, list, n, true, isResource);
      CodeStart(plan, k) <= i < |plan.shards[k]|
    ensures !isResource(PlanOf(pool, list, n, true, isResource).shards[k][i].path)
  {
    var plan := PlanOf(pool, list, n, true, isResource);
    var code := CodeOf(pool, list, true, isResource);
    var slot := InSlot(AssignOf(pool, list, n, true, isResource), FirstCodeSlot(list.Some?, n), k);
    var start := CodeStart(plan, k);
    var e := plan.shards[k][i];
    assert e in plan.shards[k][start..] by {
      InSuffix(plan.shards[k], start, i);
    }
    assert e in Select(code, slot) by {
      ShardShape(pool, list, n, true, isResource, k);
    }
    assert e in code by {
      SelectMembers(code, slot);
    }
    assert Unlisted(ListNames(list), true, isResource)(e.path) by {
      CodeIsSelection(pool, list, true, isResource);
      SelectMembers(pool, Unlisted(ListNames(list), true, isResource));
    }
  }

  /** With one slot and no list, the slot holds every code entry, in pool order. */
  lemma PlanOneSlot(pool: Archive, withResources: bool, isResource: string -> bool)
    ensures PlanOf(pool, None, 1, withResources, isResource).shards
      == [CodeOf(pool, None, withResources, isResource)]
  {
    var plan := PlanOf(pool, None, 1, withResources, isResource);
    var code := CodeOf(pool, None, withResources, isResource);
    var assign := AssignOf(pool, None, 1, withResources, isResource);
    ShardShape(pool, None, 1, withResources, isResource, 0);
    BalancePlacesEveryGroup(code, 0, 1);
    SelectAll(code, InSlot(assign, 0, 0));
    assert plan.listed == [];
    assert plan.shards[0] == code;
  }

  /** Without a list or a resource output, the code entries are the whole pool. */
  lemma CodeOfEverything(pool: Archive, isResource: string -> bool)
    ensures CodeOf(pool, None, false, isResource) == pool
  {
    SelectAll(pool, NotListed([]));
  }

  /**
   * With a list and two slots, slot 0 holds exactly the listed entries and
   * slot 1 every code entry, in pool order.
   */
  lemma PlanListTwoSlots(pool: Archive, names: seq<string>, withResources: bool, isResource: string -> bool)
    ensures PlanOf(pool, Some(names), 2, withResources, isResource).shards
      == [Picked(pool, names), CodeOf(pool, Some(names), withResources, isResource)]
  {
    var listed := Picked(pool, names);
    var code := CodeOf(pool, Some(names), withResources, isResource);
    var assign := Balance(code, 1, 2);
    assert PlanOf(pool, Some(names), 2, withResources, isResource).shards == Shards(listed, code, assign, 1, 2);
    BalancePlacesEveryGroup(code, 1, 2);
    TwoSlotsFromOne(listed, code, assign);
  }

  lemma ShardsOfTwo(listed: Archive, code: Archive, assign: map<string, nat>, first: nat)
    ensures Shards(listed, code, assign, first, 2)
      == [listed + Select(code, InSlot(assign, first, 0)), Select(code, InSlot(assign, first, 1))]
  {
    var ss := Shards(listed, code, assign, first, 2);
    var a := listed + Select(code, InSlot(assign, first, 0));
    var b := Select(code, InSlot(assign, first, 1));
    assert |ss| == 2;
    assert ss[0] == a;
    assert ss[1] == [] + b == b;
    assert ss == [a, b];
  }

  /** With code slots starting at 1 of two, slot 0 holds only the listed entries and slot 1 all code. */
  lemma TwoSlotsFromOne(listed: Archive, code: Archive, assign: map<string, nat>)
    requires InRange(assign, 1, 2)
    ensures Shards(listed, code, assign, 1, 2) == [listed, code]
  {
    assert Select(code, InSlot(assign, 1, 0)) == [] by {
      SelectNone(code, InSlot(assign, 1, 0));
    }
    assert Select(code, InSlot(assign, 1, 1)) == code by {
      SelectAll(code, InSlot(assign, 1, 1));
    }
    ShardsTwo(listed, code, assign, 1);
    assert listed + [] == listed;
  }

  /** The two outputs of a two-way split. */
  lemma ShardsTwo(listed: Archive, code: Archive, assign: map<string, nat>, first: nat)
    ensures Shards(listed, code, assign, first, 2)
      == [listed + Select(code, InSlot(assign, first, 0)), Select(code, InSlot(assign, first, 1))]
  {
    assert [] + Select(code, InSlot(assign, first, 1)) == Select(code, InSlot(assign, first, 1));
  }

  // ------------------------------------------------------------------
  // The entry date
  // ------------------------------------------------------------------

  /** The entry as written: with the configured date, if any, as its timestamp. */
  function Stamp(e: Entry, date: Option<int>): Entry
  {
    if date.Some? then e.(time := date.value) else e
  }

  function StampAll(s: Archive, date: Option<int>): Archive
  {
    if s == [] then [] else StampAll(s[..|s| - 1], date) + [Stamp(s[|s| - 1], date)]
  }

  function StampShards(shards: seq<Archive>, date: Option<int>): seq<Archive>
  {
    seq(|shards|, k requires 0 <= k < |shards| => StampAll(shards[k], date))
  }

  lemma StampShardsNone(shards: seq<Archive>)
    ensures StampShards(shards, None) == shards
  {
    forall k | 0 <= k < |shards| ensures StampShards(shards, None)[k] == shards[k] {
      StampNone(shards[k]);
    }
  }

  lemma StampShardsPair(a: Archive, b: Archive, date: Option<int>)
    ensures StampShards([a, b], date) == [StampAll(a, date), StampAll(b, date)]
  {
    var r := StampShards([a, b], date);
    assert |r| == 2 && r[0] == StampAll(a, date) && r[1] == StampAll(b, date);
  }

  lemma {:induction false} StampAppend(a: Archive, b: Archive, date: Option<int>)
    ensures StampAll(a + b, date) == StampAll(a, date) + StampAll(b, date)
    decreases |b|
  {
    if b == [] {
      assert a + b == a;
    } else {
      assert (a + b)[..|a + b| - 1] == a + b[..|b| - 1];
      StampAppend(a, b[..|b| - 1], date);
    }
  }

  /**
   * Stamping keeps every path and payload in place; with a date every
   * timestamp becomes that date, without one every timestamp is kept.
   */
  lemma {:induction false} StampAllEffect(s: Archive, date: Option<int>)
    ensures |StampAll(s, date)| == |s|
    ensures forall i :: 0 <= i < |s| ==>
      StampAll(s, date)[i].path == s[i].path && StampAll(s, date)[i].content == s[i].content
      && StampAll(s, date)[i].time == (if date.Some? then date.value else s[i].time)
  {
    if s != [] {
      StampAllEffect(s[..|s| - 1], date);
    }
  }

  lemma {:induction false} StampNone(s: Archive)
    ensures StampAll(s, None) == s
  {
    if s != [] {
      StampNone(s[..|s| - 1]);
    }
  }
}
