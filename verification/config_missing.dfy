/** What `ignore_missing` leaves out: more than the missing file (bus/config-parser.c:2036-2107, 2143-2233). */
module ConfigMissing {
  import opened BusTypes
  import opened ListFacts
  import opened ConfigIncludes
  import opened ConfigCycles

  /** The element asks for a file or directory that is not there, and does not ignore that. */
  predicate Lacks(fs: Files, stack: seq<string>, item: Item) {
    || (item.Include? && !item.ignoreMissing && item.file !in fs.files && item.file !in stack)
    || (item.IncludeDir? && item.dir !in fs.dirs)
  }

  /** Reading the file gets as far as its element `i`: nothing before that fails. */
  predicate Reads(fs: Files, stack: seq<string>, f: string, i: nat) {
    f in fs.files && f !in stack && i < |fs.files[f]| && Expand(fs, fs.files[f][..i], stack + [f]).Ok?
  }

  /**
   Each file of the chain `p` includes the next one at the position given by `at`, not ignoring that it
   may be missing; the last one asks there for something that is missing. Nothing fails earlier.
   */
  ghost predicate Leads(fs: Files, stack: seq<string>, p: seq<string>, at: seq<nat>)
    decreases |p|
  {
    && p != [] && |at| == |p| && Reads(fs, stack, p[0], at[0])
    && var item, stack' := fs.files[p[0]][at[0]], stack + [p[0]];
       if |p| == 1 then Lacks(fs, stack', item)
       else item == Include(p[1], false) && Leads(fs, stack', p[1..], at[1..])
  }

  ghost predicate LeadsToMissing(fs: Files, stack: seq<string>, f: string) {
    exists p, at :: Leads(fs, stack, p, at) && p[0] == f
  }

  // ----- the error of a file is that of its first failing element

  lemma {:induction false} FirstFailure(fs: Files, items: seq<Item>, stack: seq<string>) returns (i: nat)
    requires Expand(fs, items, stack).Err?
    ensures i < |items| && Expand(fs, items[..i], stack).Ok? && ExpandItem(fs, items[i], stack) == Expand(fs, items, stack)
    decreases |items|
  {
    if ExpandItem(fs, items[0], stack).Err? {
      i := 0;
    } else {
      var k := FirstFailure(fs, items[1..], stack);
      i := k + 1;
      assert items[..i][0] == items[0] && items[..i][1..] == items[1..][..k];
    }
  }

  lemma {:induction false} FailsThere(fs: Files, items: seq<Item>, stack: seq<string>, i: nat)
    requires i < |items| && Expand(fs, items[..i], stack).Ok? && ExpandItem(fs, items[i], stack).Err?
    ensures Expand(fs, items, stack) == ExpandItem(fs, items[i], stack)
    decreases |items|
  {
    if i > 0 {
      assert items[..i][0] == items[0] && items[..i][1..] == items[1..][..i - 1];
      FailsThere(fs, items[1..], stack, i - 1);
    }
  }

  /** The files of a directory are included ignoring what is missing, so the directory never fails for that. */
  lemma {:induction false} ListedNeverMissing(fs: Files, list: seq<string>, stack: seq<string>)
    ensures ExpandFiles(fs, list, stack) != Err(FileNotFound)
    decreases |list|
  {
    if list != [] {
      ListedNeverMissing(fs, list[1..], stack);
    }
  }

  // ----- a file fails for a missing one if and only if a chain leads there

  lemma {:induction false} MissingShows(fs: Files, stack: seq<string>, f: string) returns (p: seq<string>, at: seq<nat>)
    requires f in fs.files && f !in stack && Expand(fs, fs.files[f], stack + [f]) == Err(FileNotFound)
    ensures Leads(fs, stack, p, at) && p[0] == f
    decreases Unvisited(fs, stack)
  {
    var i := FirstFailure(fs, fs.files[f], stack + [f]);
    var item := fs.files[f][i];
    VisitOne(fs, stack, f);
    if Lacks(fs, stack + [f], item) {
      p, at := [f], [i];
    } else if item.IncludeDir? {
      ListedNeverMissing(fs, fs.dirs[item.dir], stack + [f]);
      assert false;
    } else {
      var p', at' := MissingShows(fs, stack + [f], item.file);
      p, at := [f] + p', [i] + at';
      assert p[1..] == p' && at[1..] == at';
    }
  }

  lemma {:induction false} ChainFails(fs: Files, stack: seq<string>, p: seq<string>, at: seq<nat>)
    requires Leads(fs, stack, p, at)
    ensures Expand(fs, fs.files[p[0]], stack + [p[0]]) == Err(FileNotFound)
    decreases |p|
  {
    if |p| > 1 {
      ChainFails(fs, stack + [p[0]], p[1..], at[1..]);
    }
    FailsThere(fs, fs.files[p[0]], stack + [p[0]], at[0]);
  }

  /**
   Ignoring that a file may be missing matters, for a file that is there, if and only if a chain of includes
   that do not ignore it leads from the file to a missing one before anything else fails. Then nothing that
   the file says is kept; otherwise it is included, or fails, as if nothing were ignored.
   */
  lemma DroppedIffLeadsToMissing(fs: Files, f: string, stack: seq<string>, c: Config)
    requires f in fs.files && f !in stack
    ensures LeadsToMissing(fs, stack, f) <==> IncludeFile(fs, f, true, stack, c) != IncludeFile(fs, f, false, stack, c)
    ensures LeadsToMissing(fs, stack, f) ==> IncludeFile(fs, f, true, stack, c) == Ok(c) && ExpandFile(fs, f, true, stack) == Ok([])
  {
    VisitOne(fs, stack, f);
    ProcessIsWritten(fs, fs.files[f], stack + [f], New(c.limits));
    if Expand(fs, fs.files[f], stack + [f]) == Err(FileNotFound) {
      var p, at := MissingShows(fs, stack, f);
    } else if LeadsToMissing(fs, stack, f) {
      var p, at :| Leads(fs, stack, p, at) && p[0] == f;
      ChainFails(fs, stack, p, at);
    }
  }

  // ----- the same in terms of what the files say only

  /** Each file of the chain includes the next one, not ignoring that it may be missing. */
  ghost predicate HardChain(fs: Files, f: string, p: seq<string>) {
    forall i :: 0 <= i < |p| ==> Before(f, p, i) in fs.files && Include(p[i], false) in fs.files[Before(f, p, i)]
  }

  /** The chain ends at a file that asks for something missing. */
  ghost predicate EndsMissing(fs: Files, f: string, p: seq<string>) {
    HardChain(fs, f, p) && Last(f, p) in fs.files && exists item :: item in fs.files[Last(f, p)] && Lacks(fs, [], item)
  }

  ghost predicate NoneMalformed(fs: Files) { forall f :: f in fs.files ==> Malformed !in fs.files[f] }

  lemma {:induction false} NothingElse(fs: Files, items: seq<Item>, stack: seq<string>)
    requires NoneMalformed(fs) && Malformed !in items
    ensures var r := Expand(fs, items, stack); r.Err? ==> r.error == FileNotFound || r.error.Circular?
    decreases Unvisited(fs, stack), 1, |items|
  {
    if items != [] {
      NothingElse(fs, items[1..], stack);
      var item := items[0];
      assert item in items;
      if item.Include? {
        NothingElseFile(fs, item.file, item.ignoreMissing, stack);
      } else if item.IncludeDir? && item.dir in fs.dirs {
        NothingElseFiles(fs, fs.dirs[item.dir], stack);
      }
    }
  }

  lemma {:induction false} NothingElseFile(fs: Files, file: string, ign: bool, stack: seq<string>)
    requires NoneMalformed(fs)
    ensures var r := ExpandFile(fs, file, ign, stack); r.Err? ==> r.error == FileNotFound || r.error.Circular?
    decreases Unvisited(fs, stack), 0, 0
  {
    if file !in stack && file in fs.files {
      VisitOne(fs, stack, file);
      NothingElse(fs, fs.files[file], stack + [file]);
    }
  }

  lemma {:induction false} NothingElseFiles(fs: Files, list: seq<string>, stack: seq<string>)
    requires NoneMalformed(fs)
    ensures var r := ExpandFiles(fs, list, stack); r.Err? ==> r.error == FileNotFound || r.error.Circular?
    decreases Unvisited(fs, stack), 0, 1 + |list|
  {
    if list != [] {
      NothingElseFile(fs, list[0], true, stack);
      NothingElseFiles(fs, list[1..], stack);
    }
  }

  /** A file from which something missing can be reached does not expand. */
  lemma {:induction false} HardChainFails(fs: Files, f: string, stack: seq<string>, p: seq<string>)
    requires f in fs.files && EndsMissing(fs, f, p)
    ensures Expand(fs, fs.files[f], stack).Err?
    decreases |p|
  {
    if Expand(fs, fs.files[f], stack).Ok? {
      if p == [] {
        var item :| item in fs.files[f] && Lacks(fs, [], item);
        EachItemExpands(fs, fs.files[f], stack, item);
      } else {
        var g, rest := p[0], p[1..];
        assert Before(f, p, 0) == f;
        EachItemExpands(fs, fs.files[f], stack, Include(g, false));
        ChainTail(fs, f, p);
        HardChainFails(fs, g, stack + [g], rest);
      }
      assert false;
    }
  }

  lemma ChainTail(fs: Files, f: string, p: seq<string>)
    requires p != [] && EndsMissing(fs, f, p)
    ensures EndsMissing(fs, p[0], p[1..])
  {
    var g, rest := p[0], p[1..];
    forall i | 0 <= i < |rest|
      ensures Before(g, rest, i) in fs.files && Include(rest[i], false) in fs.files[Before(g, rest, i)]
    {
      assert Before(g, rest, i) == Before(f, p, i + 1) && rest[i] == p[i + 1];
    }
    assert Last(g, rest) == Last(f, p);
  }

  /** A chain along which nothing fails is such a chain. */
  lemma {:induction false} LeadsIsHard(fs: Files, stack: seq<string>, p: seq<string>, at: seq<nat>)
    requires Leads(fs, stack, p, at)
    ensures EndsMissing(fs, p[0], p[1..])
    decreases |p|
  {
    var f, item := p[0], fs.files[p[0]][at[0]];
    assert item in fs.files[f];
    if |p| == 1 {
      assert Last(f, p[1..]) == f && Lacks(fs, [], item);
    } else {
      LeadsIsHard(fs, stack + [f], p[1..], at[1..]);
      var rest := p[1..];
      forall i | 0 <= i < |rest|
        ensures Before(f, rest, i) in fs.files && Include(rest[i], false) in fs.files[Before(f, rest, i)]
      {
        if i > 0 {
          assert Before(rest[0], rest[1..], i - 1) == Before(f, rest, i) && rest[1..][i - 1] == rest[i];
        }
      }
      assert Last(rest[0], rest[1..]) == Last(f, rest);
    }
  }

  /**
   Among files that are well made and do not include each other in a circle, an ignored include of a file
   drops it if and only if some chain of includes that are not ignored reaches a file that asks for
   something missing.
   */
  lemma DroppedIffEndsMissing(fs: Files, root: string, f: string, c: Config)
    requires NoneMalformed(fs) && f in fs.files && Mentions(fs, root, f)
    requires forall p :: ChainFrom(fs, root, p) ==> NoDup(p)
    ensures IncludeFile(fs, f, true, [], c) != IncludeFile(fs, f, false, [], c) <==> exists p :: EndsMissing(fs, f, p)
  {
    DroppedIffLeadsToMissing(fs, f, [], c);
    if LeadsToMissing(fs, [], f) {
      var p, at :| Leads(fs, [], p, at) && p[0] == f;
      LeadsIsHard(fs, [], p, at);
    } else if p :| EndsMissing(fs, f, p) {
      HardChainFails(fs, f, [f], p);
      NothingElse(fs, fs.files[f], [f]);
      assert [] + [f] == [f];
      if Expand(fs, fs.files[f], [f]) == Err(FileNotFound) {
        var p', at := MissingShows(fs, [], f);
      } else {
        ChainSnoc(fs, root, [], f);
        var q := CircularShows(fs, root, fs.files[f], [f]);
      }
      assert false;
    }
  }

  // ----- a concrete case

  const MAIN: seq<Item> := [Plain(Listen("unix:path=/main")), Include("a.conf", true)]
  const PART: seq<Item> := [Plain(Listen("unix:path=/part")), Include("b.conf", false)]
  const WITHOUT_B: Files := Files(map["main.conf" := MAIN, "a.conf" := PART], map[])

  /** `a.conf` is there and says where to listen, but b.conf, which it includes, is not: the bus does not listen there. */
  lemma ListenIsLost(limits: map<string, int>)
    ensures "a.conf" in WITHOUT_B.files && PART[0] == Plain(Listen("unix:path=/part"))
    ensures LeadsToMissing(WITHOUT_B, [], "a.conf")
    ensures var r := Load(WITHOUT_B, "main.conf", limits); r.Ok? && r.value.listen == ["unix:path=/main"]
  {
    var fs, stack := WITHOUT_B, ["a.conf"];
    assert PART[..1] == [PART[0]] && PART[..1][1..] == [];
    assert Expand(fs, [], stack) == Ok([]);
    assert Expand(fs, PART[..1], stack).Ok?;
    assert [] + ["a.conf"] == stack;
    assert Reads(fs, [], "a.conf", 1);
    assert Leads(fs, [], ["a.conf"], [1]);
    var c := Apply(New(limits), Listen("unix:path=/main"));
    DroppedIffLeadsToMissing(fs, "a.conf", [], c);
    assert MAIN[1..] == [Include("a.conf", true)] && MAIN[1..][1..] == [];
    assert Process(fs, MAIN[1..][1..], [], c) == Ok(c);
    assert Process(fs, MAIN[1..], [], c) == Ok(c);
    assert Process(fs, MAIN, [], New(limits)) == Ok(c);
  }
}
