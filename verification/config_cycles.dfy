/** When includes are circular (bus/config-parser.c:337-353, 2036-2107). */
module ConfigCycles {
  import opened BusTypes
  import opened ListFacts
  import opened ConfigIncludes

  /** The element includes the file, by name or through a directory. */
  predicate Names(fs: Files, item: Item, g: string) {
    || (item.Include? && item.file == g)
    || (item.IncludeDir? && item.dir in fs.dirs && g in fs.dirs[item.dir])
  }

  ghost predicate Mentions(fs: Files, f: string, g: string) {
    f in fs.files && exists item :: item in fs.files[f] && Names(fs, item, g)
  }

  /** Each file of the chain includes the next one, the first being included by `root`. */
  ghost predicate ChainFrom(fs: Files, root: string, p: seq<string>) {
    forall i :: 0 <= i < |p| ==> Mentions(fs, Before(root, p, i), p[i])
  }

  function Before(root: string, p: seq<string>, i: int): string
    requires 0 <= i <= |p|
  {
    if i == 0 then root else p[i - 1]
  }

  function Last(root: string, p: seq<string>): string { Before(root, p, |p|) }

  /** Every included file and directory is there, and no file is malformed. */
  ghost predicate Complete(fs: Files) {
    && (forall f, item :: f in fs.files && item in fs.files[f] ==> WellMade(fs, item))
    && (forall d, g :: d in fs.dirs && g in fs.dirs[d] ==> g in fs.files)
  }

  predicate WellMade(fs: Files, item: Item) {
    && !item.Malformed?
    && (item.Include? ==> item.file in fs.files)
    && (item.IncludeDir? ==> item.dir in fs.dirs)
  }

  predicate IsCircular<T>(r: Result<T>) { r.Err? && r.error.Circular? }

  // ----- in a complete set of files nothing else goes wrong

  lemma {:induction false} OnlyCircles(fs: Files, items: seq<Item>, stack: seq<string>)
    requires Complete(fs) && forall item :: item in items ==> WellMade(fs, item)
    ensures var r := Expand(fs, items, stack); r.Err? ==> IsCircular(r)
    decreases Unvisited(fs, stack), 1, |items|
  {
    if items != [] {
      OnlyCircles(fs, items[1..], stack);
      var item := items[0];
      assert item in items;
      if item.Include? {
        OnlyCirclesFile(fs, item.file, item.ignoreMissing, stack);
      } else if item.IncludeDir? {
        OnlyCirclesFiles(fs, fs.dirs[item.dir], stack);
      }
    }
  }

  lemma {:induction false} OnlyCirclesFile(fs: Files, file: string, ign: bool, stack: seq<string>)
    requires Complete(fs) && file in fs.files
    ensures var r := ExpandFile(fs, file, ign, stack); r.Err? ==> IsCircular(r)
    ensures ExpandFile(fs, file, ign, stack).Ok? ==> file !in stack && Expand(fs, fs.files[file], stack + [file]).Ok?
    decreases Unvisited(fs, stack), 0, 0
  {
    if file !in stack {
      VisitOne(fs, stack, file);
      OnlyCircles(fs, fs.files[file], stack + [file]);
    }
  }

  lemma {:induction false} OnlyCirclesFiles(fs: Files, list: seq<string>, stack: seq<string>)
    requires Complete(fs) && forall f :: f in list ==> f in fs.files
    ensures var r := ExpandFiles(fs, list, stack); r.Err? ==> IsCircular(r)
    decreases Unvisited(fs, stack), 0, 1 + |list|
  {
    if list != [] {
      OnlyCirclesFile(fs, list[0], true, stack);
      OnlyCirclesFiles(fs, list[1..], stack);
    }
  }

  // ----- a successful load follows every chain

  lemma {:induction false} EachItemExpands(fs: Files, items: seq<Item>, stack: seq<string>, item: Item)
    requires Expand(fs, items, stack).Ok? && item in items
    ensures ExpandItem(fs, item, stack).Ok?
    decreases |items|
  {
    if item != items[0] {
      assert item in items[1..];
      EachItemExpands(fs, items[1..], stack, item);
    }
  }

  lemma {:induction false} EachFileExpands(fs: Files, list: seq<string>, stack: seq<string>, f: string)
    requires ExpandFiles(fs, list, stack).Ok? && f in list
    ensures ExpandFile(fs, f, true, stack).Ok?
    decreases |list|
  {
    if f != list[0] {
      assert f in list[1..];
      EachFileExpands(fs, list[1..], stack, f);
    }
  }

  lemma MentionExpands(fs: Files, cur: string, stack: seq<string>, g: string)
    requires Complete(fs) && Mentions(fs, cur, g) && Expand(fs, fs.files[cur], stack).Ok?
    ensures g in fs.files && g !in stack && Expand(fs, fs.files[g], stack + [g]).Ok?
  {
    var item :| item in fs.files[cur] && Names(fs, item, g);
    assert WellMade(fs, item);
    EachItemExpands(fs, fs.files[cur], stack, item);
    if item.Include? {
      OnlyCirclesFile(fs, g, item.ignoreMissing, stack);
    } else {
      EachFileExpands(fs, fs.dirs[item.dir], stack, g);
      OnlyCirclesFile(fs, g, true, stack);
    }
  }

  lemma {:induction false} ChainsAreDistinct(fs: Files, cur: string, stack: seq<string>, p: seq<string>)
    requires Complete(fs) && cur in fs.files && ChainFrom(fs, cur, p) && Expand(fs, fs.files[cur], stack).Ok?
    ensures NoDup(p) && forall g :: g in p ==> g !in stack
    decreases |p|
  {
    if p != [] {
      var g, rest := p[0], p[1..];
      assert Mentions(fs, Before(cur, p, 0), p[0]);
      MentionExpands(fs, cur, stack, g);
      assert ChainFrom(fs, g, rest) by {
        forall i | 0 <= i < |rest|
          ensures Mentions(fs, Before(g, rest, i), rest[i])
        {
          assert Mentions(fs, Before(cur, p, i + 1), p[i + 1]);
        }
      }
      ChainsAreDistinct(fs, g, stack + [g], rest);
      assert g !in rest;
      NoDupCons(g, rest);
      assert p == [g] + rest;
    }
  }

  // ----- a failed load shows a circular chain

  ghost predicate Repeats(fs: Files, root: string, p: seq<string>) {
    ChainFrom(fs, root, p) && !NoDup(p)
  }

  lemma ChainSnoc(fs: Files, root: string, p: seq<string>, g: string)
    requires ChainFrom(fs, root, p) && Mentions(fs, Last(root, p), g)
    ensures ChainFrom(fs, root, p + [g])
  {
    forall i | 0 <= i < |p|
      ensures Mentions(fs, Before(root, p + [g], i), (p + [g])[i])
    {
      assert Mentions(fs, Before(root, p, i), p[i]);
    }
  }

  lemma SeenTwice(p: seq<string>, g: string)
    requires g in p
    ensures !NoDup(p + [g])
  {
    var i :| 0 <= i < |p| && p[i] == g;
    assert (p + [g])[i] == (p + [g])[|p|];
  }

  lemma {:induction false} CircularShows(fs: Files, root: string, items: seq<Item>, stack: seq<string>) returns (p: seq<string>)
    requires ChainFrom(fs, root, stack) && Last(root, stack) in fs.files
    requires forall item :: item in items ==> item in fs.files[Last(root, stack)]
    requires IsCircular(Expand(fs, items, stack))
    ensures Repeats(fs, root, p)
    decreases Unvisited(fs, stack), 1, |items|
  {
    var item, cur := items[0], Last(root, stack);
    assert item in fs.files[cur];
    if !IsCircular(ExpandItem(fs, item, stack)) {
      p := CircularShows(fs, root, items[1..], stack);
    } else if item.Include? {
      assert Names(fs, item, item.file) && Mentions(fs, cur, item.file);
      p := CircularFile(fs, root, item.file, item.ignoreMissing, stack);
    } else {
      forall g | g in fs.dirs[item.dir]
        ensures Mentions(fs, cur, g)
      {
        assert Names(fs, item, g);
      }
      p := CircularFiles(fs, root, fs.dirs[item.dir], stack);
    }
  }

  lemma {:induction false} CircularFile(fs: Files, root: string, file: string, ign: bool, stack: seq<string>) returns (p: seq<string>)
    requires ChainFrom(fs, root, stack) && Mentions(fs, Last(root, stack), file)
    requires IsCircular(ExpandFile(fs, file, ign, stack))
    ensures Repeats(fs, root, p)
    decreases Unvisited(fs, stack), 0, 0
  {
    ChainSnoc(fs, root, stack, file);
    if file in stack {
      SeenTwice(stack, file);
      p := stack + [file];
    } else {
      VisitOne(fs, stack, file);
      p := CircularShows(fs, root, fs.files[file], stack + [file]);
    }
  }

  lemma {:induction false} CircularFiles(fs: Files, root: string, list: seq<string>, stack: seq<string>) returns (p: seq<string>)
    requires ChainFrom(fs, root, stack) && forall g :: g in list ==> Mentions(fs, Last(root, stack), g)
    requires IsCircular(ExpandFiles(fs, list, stack))
    ensures Repeats(fs, root, p)
    decreases Unvisited(fs, stack), 0, 1 + |list|
  {
    assert list[0] in list;
    if IsCircular(ExpandFile(fs, list[0], true, stack)) {
      p := CircularFile(fs, root, list[0], true, stack);
    } else {
      p := CircularFiles(fs, root, list[1..], stack);
    }
  }

  /** A circular-inclusion error is never reported without a chain of includes that comes back to a file it went through. */
  lemma CircularErrorIsGenuine(fs: Files, root: string, limits: map<string, int>)
    requires IsCircular(Load(fs, root, limits))
    ensures exists p :: Repeats(fs, root, p)
  {
    LoadIsInlining(fs, root, limits);
    var p := CircularShows(fs, root, fs.files[root], []);
  }

  /**
   With all files at hand, the includes of a file can be resolved if and only if no chain of includes
   starting from it goes through the same file twice.
   */
  lemma ResolvedIffNoRepeats(fs: Files, root: string)
    requires Complete(fs) && root in fs.files
    ensures Expand(fs, fs.files[root], []).Ok? <==> forall p :: ChainFrom(fs, root, p) ==> NoDup(p)
  {
    if Expand(fs, fs.files[root], []).Ok? {
      forall p | ChainFrom(fs, root, p)
        ensures NoDup(p)
      {
        ChainsAreDistinct(fs, root, [], p);
      }
    } else {
      OnlyCircles(fs, fs.files[root], []);
      var p := CircularShows(fs, root, fs.files[root], []);
      assert ChainFrom(fs, root, p) && !NoDup(p);
    }
  }
}
