/**
 Included configuration files: loading a file that includes others, merging what they say, and the
 theorem that this is the same as writing the included directives out in place
 (bus/config-parser.c:186-353, 389-397, 2036-2107, 2143-2233; bus/policy.c:605-693).
 */
module ConfigIncludes {
  import opened BusTypes
  import opened Policy
  import opened PolicyLayers

  /** Which list of the policy a rule goes to. */
  datatype PolicyList = Defaults | Mandatory | Console(at: bool) | User(uid: int) | Group(gid: int)

  /** What a parser has gathered; `limits` by name. */
  datatype Config = Config(
    user: Option<string>, busType: Option<string>, pidfile: Option<string>, helper: Option<string>,
    fork: bool, keepUmask: bool, syslog: bool,
    listen: seq<string>, mechanisms: seq<string>, serviceDirs: seq<string>, confDirs: seq<string>,
    policy: BusPolicy, contexts: map<string, string>, limits: map<string, int>)

  /** A directive that concerns this file only. `ConfDir` records a directory whose files were included. */
  datatype Plain =
    | SetUser(s: string) | SetType(s: string) | SetPidfile(s: string) | SetHelper(s: string)
    | Fork | KeepUmask | Syslog
    | Listen(s: string) | Auth(s: string) | ServiceDir(s: string) | ConfDir(s: string)
    | AddRule(to: PolicyList, rule: Rule)
    | Associate(service: string, context: string)
    | Limit(name: string, value: int)

  /** An element of a configuration file; names of files and directories are full paths. */
  datatype Item = Plain(d: Plain) | Include(file: string, ignoreMissing: bool) | IncludeDir(dir: string) | Malformed

  /** The readable files, and for each readable directory its files ending in .conf in the order they are listed. */
  datatype Files = Files(files: map<string, seq<Item>>, dirs: map<string, seq<string>>)

  datatype Error = FileNotFound | Circular(file: string) | Bad | NoListen

  datatype Result<T> = Ok(value: T) | Err(error: Error)

  const NO_POLICY: BusPolicy := BusPolicy([], [], map[], map[], [], [])

  /** A new parser, with the limits of its parent. */
  function New(limits: map<string, int>): Config {
    Config(None, None, None, None, false, false, false, [], [], [], [], NO_POLICY, map[], limits)
  }

  // ----- what a directive does

  function AddTo(table: map<int, seq<Rule>>, id: int, r: Rule): map<int, seq<Rule>> {
    table[id := ListFor(table, id) + [r]]
  }

  function Append(p: BusPolicy, to: PolicyList, r: Rule): BusPolicy {
    match to
    case Defaults => p.(defaults := p.defaults + [r])
    case Mandatory => p.(mandatory := p.mandatory + [r])
    case Console(at) => if at then p.(atConsole := p.atConsole + [r]) else p.(notAtConsole := p.notAtConsole + [r])
    case User(uid) => p.(byUid := AddTo(p.byUid, uid, r))
    case Group(gid) => p.(byGid := AddTo(p.byGid, gid, r))
  }

  function AddUnique(dirs: seq<string>, d: string): seq<string> {
    if d in dirs then dirs else dirs + [d]
  }

  function Apply(c: Config, d: Plain): Config {
    match d
    case SetUser(s) => c.(user := Some(s))
    case SetType(s) => c.(busType := Some(s))
    case SetPidfile(s) => c.(pidfile := Some(s))
    case SetHelper(s) => c.(helper := Some(s))
    case Fork => c.(fork := true)
    case KeepUmask => c.(keepUmask := true)
    case Syslog => c.(syslog := true)
    case Listen(s) => c.(listen := c.listen + [s])
    case Auth(s) => c.(mechanisms := c.mechanisms + [s])
    case ServiceDir(s) => c.(serviceDirs := AddUnique(c.serviceDirs, s))
    case ConfDir(s) => c.(confDirs := c.confDirs + [s])
    case AddRule(to, rule) => c.(policy := Append(c.policy, to, rule))
    case Associate(service, context) => c.(contexts := c.contexts[service := context])
    case Limit(name, value) => c.(limits := c.limits[name := value])
  }

  function ApplyAll(c: Config, ds: seq<Plain>): Config
    decreases |ds|
  {
    if ds == [] then c else Apply(ApplyAll(c, ds[..|ds| - 1]), ds[|ds| - 1])
  }

  // ----- merging

  function Or(a: Option<string>, b: Option<string>): Option<string> { if b.Some? then b else a }

  function AddAllUnique(dirs: seq<string>, more: seq<string>): seq<string>
    decreases |more|
  {
    if more == [] then dirs else AddUnique(AddAllUnique(dirs, more[..|more| - 1]), more[|more| - 1])
  }

  function MergeTable(a: map<int, seq<Rule>>, b: map<int, seq<Rule>>): map<int, seq<Rule>> {
    map id | id in a.Keys + b.Keys :: ListFor(a, id) + ListFor(b, id)
  }

  function MergePolicy(a: BusPolicy, b: BusPolicy): BusPolicy {
    BusPolicy(a.defaults + b.defaults, a.mandatory + b.mandatory, MergeTable(a.byUid, b.byUid), MergeTable(a.byGid, b.byGid),
              a.atConsole + b.atConsole, a.notAtConsole + b.notAtConsole)
  }

  /** `merge_included`, with the limits copied back. The helper and syslog of the included file are not taken over. */
  function Merge(c: Config, inc: Config): Config {
    Config(Or(c.user, inc.user), Or(c.busType, inc.busType), Or(c.pidfile, inc.pidfile), c.helper,
           c.fork || inc.fork, c.keepUmask || inc.keepUmask, c.syslog,
           c.listen + inc.listen, c.mechanisms + inc.mechanisms, AddAllUnique(c.serviceDirs, inc.serviceDirs),
           c.confDirs + inc.confDirs, MergePolicy(c.policy, inc.policy), c.contexts + inc.contexts, inc.limits)
  }

  // ----- loading

  /** The files that can still be included. */
  function Unvisited(fs: Files, stack: seq<string>): set<string> {
    fs.files.Keys - (set f | f in stack)
  }

  lemma VisitOne(fs: Files, stack: seq<string>, f: string)
    requires f in fs.files && f !in stack
    ensures Unvisited(fs, stack + [f]) < Unvisited(fs, stack)
  {
    assert f in Unvisited(fs, stack) && f !in Unvisited(fs, stack + [f]);
  }

  /** Processing elements while the files in `stack` are being included. */
  function Process(fs: Files, items: seq<Item>, stack: seq<string>, c: Config): Result<Config>
    decreases Unvisited(fs, stack), 1, |items|
  {
    if items == [] then Ok(c)
    else
      match items[0]
      case Plain(d) => Process(fs, items[1..], stack, Apply(c, d))
      case Malformed => Err(Bad)
      case Include(file, ign) =>
        (match IncludeFile(fs, file, ign, stack, c)
         case Ok(c') => Process(fs, items[1..], stack, c')
         case Err(e) => Err(e))
      case IncludeDir(dir) =>
        if dir !in fs.dirs then Err(FileNotFound)
        else
          match IncludeAll(fs, fs.dirs[dir], stack, c)
          case Ok(c') => Process(fs, items[1..], stack, Apply(c', ConfDir(dir)))
          case Err(e) => Err(e)
  }

  /** `include_file`. Any file that is not found while reading the included one makes the whole include a missing one. */
  function IncludeFile(fs: Files, file: string, ignoreMissing: bool, stack: seq<string>, c: Config): Result<Config>
    decreases Unvisited(fs, stack), 0, 0
  {
    if file in stack then Err(Circular(file))
    else if file !in fs.files then if ignoreMissing then Ok(c) else Err(FileNotFound)
    else
      VisitOne(fs, stack, file);
      match Process(fs, fs.files[file], stack + [file], New(c.limits))
      case Ok(inc) => Ok(Merge(c, inc))
      case Err(e) => if e == FileNotFound && ignoreMissing then Ok(c) else Err(e)
  }

  /** `include_dir`: every listed file, missing ones ignored. */
  function IncludeAll(fs: Files, list: seq<string>, stack: seq<string>, c: Config): Result<Config>
    decreases Unvisited(fs, stack), 0, 1 + |list|
  {
    if list == [] then Ok(c)
    else
      match IncludeFile(fs, list[0], true, stack, c)
      case Ok(c') => IncludeAll(fs, list[1..], stack, c')
      case Err(e) => Err(e)
  }

  /** The top-level file has to say where to listen. */
  function Load(fs: Files, file: string, limits: map<string, int>): Result<Config> {
    if file !in fs.files then Err(FileNotFound)
    else
      match Process(fs, fs.files[file], [], New(limits))
      case Ok(c) => if c.listen == [] then Err(NoListen) else Ok(c)
      case Err(e) => Err(e)
  }

  // ----- the same with the included directives written out

  /** The directives that an included file passes on. */
  function Carried(ds: seq<Plain>): seq<Plain>
    decreases |ds|
  {
    if ds == [] then []
    else
      var front, d := Carried(ds[..|ds| - 1]), ds[|ds| - 1];
      if d.SetHelper? || d.Syslog? then front else front + [d]
  }

  function Then(a: Result<seq<Plain>>, b: Result<seq<Plain>>): Result<seq<Plain>> {
    if a.Err? then a else if b.Err? then b else Ok(a.value + b.value)
  }

  function Expand(fs: Files, items: seq<Item>, stack: seq<string>): Result<seq<Plain>>
    decreases Unvisited(fs, stack), 1, |items|
  {
    if items == [] then Ok([]) else Then(ExpandItem(fs, items[0], stack), Expand(fs, items[1..], stack))
  }

  function ExpandItem(fs: Files, item: Item, stack: seq<string>): Result<seq<Plain>>
    decreases Unvisited(fs, stack), 1, 0
  {
    match item
    case Plain(d) => Ok([d])
    case Malformed => Err(Bad)
    case Include(file, ign) => ExpandFile(fs, file, ign, stack)
    case IncludeDir(dir) =>
      if dir !in fs.dirs then Err(FileNotFound)
      else Then(ExpandFiles(fs, fs.dirs[dir], stack), Ok([ConfDir(dir)]))
  }

  function ExpandFile(fs: Files, file: string, ignoreMissing: bool, stack: seq<string>): Result<seq<Plain>>
    decreases Unvisited(fs, stack), 0, 0
  {
    if file in stack then Err(Circular(file))
    else if file !in fs.files then if ignoreMissing then Ok([]) else Err(FileNotFound)
    else
      VisitOne(fs, stack, file);
      match Expand(fs, fs.files[file], stack + [file])
      case Ok(ds) => Ok(Carried(ds))
      case Err(e) => if e == FileNotFound && ignoreMissing then Ok([]) else Err(e)
  }

  function ExpandFiles(fs: Files, list: seq<string>, stack: seq<string>): Result<seq<Plain>>
    decreases Unvisited(fs, stack), 0, 1 + |list|
  {
    if list == [] then Ok([]) else Then(ExpandFile(fs, list[0], true, stack), ExpandFiles(fs, list[1..], stack))
  }

  /** What a configuration becomes when a list of directives, or its failure, is applied to it. */
  function Written(c: Config, ds: Result<seq<Plain>>): Result<Config> {
    match ds
    case Ok(s) => Ok(ApplyAll(c, s))
    case Err(e) => Err(e)
  }

  // ----- merging is applying

  lemma MergeAppend(p: BusPolicy, q: BusPolicy, to: PolicyList, r: Rule)
    ensures MergePolicy(p, Append(q, to, r)) == Append(MergePolicy(p, q), to, r)
  {
    match to
    case User(uid) => MergeAddTo(p.byUid, q.byUid, uid, r);
    case Group(gid) => MergeAddTo(p.byGid, q.byGid, gid, r);
    case Defaults => assert p.defaults + (q.defaults + [r]) == p.defaults + q.defaults + [r];
    case Mandatory => assert p.mandatory + (q.mandatory + [r]) == p.mandatory + q.mandatory + [r];
    case Console(at) =>
      assert p.atConsole + (q.atConsole + [r]) == p.atConsole + q.atConsole + [r];
      assert p.notAtConsole + (q.notAtConsole + [r]) == p.notAtConsole + q.notAtConsole + [r];
  }

  lemma ListForMerge(a: map<int, seq<Rule>>, b: map<int, seq<Rule>>, id: int)
    ensures ListFor(MergeTable(a, b), id) == ListFor(a, id) + ListFor(b, id)
  {
  }

  lemma MergeAddTo(a: map<int, seq<Rule>>, b: map<int, seq<Rule>>, id: int, r: Rule)
    ensures MergeTable(a, AddTo(b, id, r)) == AddTo(MergeTable(a, b), id, r)
  {
    var ab := MergeTable(a, b);
    assert ListFor(a, id) + (ListFor(b, id) + [r]) == ListFor(ab, id) + [r] by {
      ListForMerge(a, b, id);
      assert ListFor(a, id) + (ListFor(b, id) + [r]) == ListFor(a, id) + ListFor(b, id) + [r];
    }
    var b', x := AddTo(b, id, r), ListFor(ab, id) + [r];
    assert MergeTable(a, b') == ab[id := x] by {
      assert b'.Keys == b.Keys + {id} && ListFor(b', id) == ListFor(b, id) + [r];
      assert forall k :: k != id ==> ListFor(b', k) == ListFor(b, k);
    }
  }

  lemma MergeEmpty(a: map<int, seq<Rule>>)
    ensures MergeTable(a, map[]) == a
  {
    forall k | k in a
      ensures MergeTable(a, map[])[k] == a[k]
    {
      assert a[k] + [] == a[k];
    }
  }

  lemma {:induction false} AllUniqueFacts(dirs: seq<string>, more: seq<string>)
    ensures forall d :: d in AddAllUnique(dirs, more) <==> d in dirs || d in more
    decreases |more|
  {
    if more != [] {
      AllUniqueFacts(dirs, more[..|more| - 1]);
      assert more == more[..|more| - 1] + [more[|more| - 1]];
    }
  }

  lemma MergeAddUnique(dirs: seq<string>, more: seq<string>, d: string)
    ensures AddAllUnique(dirs, AddUnique(more, d)) == AddUnique(AddAllUnique(dirs, more), d)
  {
    AllUniqueFacts(dirs, more);
    assert (more + [d])[..|more|] == more;
  }

  lemma MergeRule(c: Config, inc: Config, to: PolicyList, rule: Rule)
    ensures Merge(c, Apply(inc, AddRule(to, rule))) == Apply(Merge(c, inc), AddRule(to, rule))
  {
    MergeAppend(c.policy, inc.policy, to, rule);
  }

  lemma MergeAssociate(c: Config, inc: Config, service: string, context: string)
    ensures Merge(c, Apply(inc, Associate(service, context))) == Apply(Merge(c, inc), Associate(service, context))
  {
    assert c.contexts + inc.contexts[service := context] == (c.contexts + inc.contexts)[service := context];
  }

  /** Merging after one more directive is that directive after merging. */
  lemma MergeApply(c: Config, inc: Config, d: Plain)
    requires !d.SetHelper? && !d.Syslog?
    ensures Merge(c, Apply(inc, d)) == Apply(Merge(c, inc), d)
  {
    match d
    case Listen(s) => assert c.listen + (inc.listen + [s]) == c.listen + inc.listen + [s];
    case Auth(s) => assert c.mechanisms + (inc.mechanisms + [s]) == c.mechanisms + inc.mechanisms + [s];
    case ConfDir(s) => assert c.confDirs + (inc.confDirs + [s]) == c.confDirs + inc.confDirs + [s];
    case ServiceDir(s) => MergeAddUnique(c.serviceDirs, inc.serviceDirs, s);
    case AddRule(to, rule) => MergeRule(c, inc, to, rule);
    case Associate(service, context) => MergeAssociate(c, inc, service, context);
    case _ =>
  }

  lemma MergeNew(c: Config)
    ensures Merge(c, New(c.limits)) == c
  {
    MergeEmpty(c.policy.byUid);
    MergeEmpty(c.policy.byGid);
    assert MergePolicy(c.policy, NO_POLICY) == c.policy;
    assert c.contexts + map[] == c.contexts;
  }

  /** Merging what a file says into the parser is applying its directives there, the helper and syslog aside. */
  lemma {:induction false} MergeIsApply(c: Config, ds: seq<Plain>)
    ensures Merge(c, ApplyAll(New(c.limits), ds)) == ApplyAll(c, Carried(ds))
    decreases |ds|
  {
    if ds == [] {
      MergeNew(c);
    } else {
      var front, d := ds[..|ds| - 1], ds[|ds| - 1];
      var inc := ApplyAll(New(c.limits), front);
      MergeIsApply(c, front);
      if !d.SetHelper? && !d.Syslog? {
        MergeApply(c, inc, d);
        assert (Carried(front) + [d])[..|Carried(front)|] == Carried(front);
      } else {
        assert Merge(c, Apply(inc, d)) == Merge(c, inc);
      }
    }
  }

  lemma {:induction false} ApplyConcat(c: Config, a: seq<Plain>, b: seq<Plain>)
    ensures ApplyAll(c, a + b) == ApplyAll(ApplyAll(c, a), b)
    decreases |b|
  {
    if b == [] {
      assert a + b == a;
    } else {
      assert (a + b)[..|a + b| - 1] == a + b[..|b| - 1];
      ApplyConcat(c, a, b[..|b| - 1]);
    }
  }

  lemma WrittenThen(c: Config, a: Result<seq<Plain>>, b: Result<seq<Plain>>)
    ensures Written(c, Then(a, b)) == match Written(c, a) case Ok(c') => Written(c', b) case Err(e) => Err(e)
  {
    if a.Ok? && b.Ok? {
      ApplyConcat(c, a.value, b.value);
    }
  }

  // ----- loading is applying the expansion

  lemma {:induction false} ProcessIsWritten(fs: Files, items: seq<Item>, stack: seq<string>, c: Config)
    ensures Process(fs, items, stack, c) == Written(c, Expand(fs, items, stack))
    decreases Unvisited(fs, stack), 1, |items|
  {
    if items != [] {
      var item, rest := items[0], items[1..];
      WrittenThen(c, ExpandItem(fs, item, stack), Expand(fs, rest, stack));
      match item
      case Plain(d) =>
        ApplyOne(c, d);
        ProcessIsWritten(fs, rest, stack, Apply(c, d));
      case Malformed =>
      case Include(file, ign) =>
        IncludeIsWritten(fs, file, ign, stack, c);
        var r := IncludeFile(fs, file, ign, stack, c);
        if r.Ok? { ProcessIsWritten(fs, rest, stack, r.value); }
      case IncludeDir(dir) =>
        if dir in fs.dirs {
          IncludeAllIsWritten(fs, fs.dirs[dir], stack, c);
          WrittenThen(c, ExpandFiles(fs, fs.dirs[dir], stack), Ok([ConfDir(dir)]));
          var r := IncludeAll(fs, fs.dirs[dir], stack, c);
          if r.Ok? {
            ApplyOne(r.value, ConfDir(dir));
            ProcessIsWritten(fs, rest, stack, Apply(r.value, ConfDir(dir)));
          }
        }
    }
  }

  lemma ApplyOne(c: Config, d: Plain)
    ensures ApplyAll(c, [d]) == Apply(c, d)
  {
    assert [d][..0] == [];
  }

  lemma {:induction false} IncludeIsWritten(fs: Files, file: string, ign: bool, stack: seq<string>, c: Config)
    ensures IncludeFile(fs, file, ign, stack, c) == Written(c, ExpandFile(fs, file, ign, stack))
    decreases Unvisited(fs, stack), 0, 0
  {
    if file !in stack && file in fs.files {
      VisitOne(fs, stack, file);
      var inner := Expand(fs, fs.files[file], stack + [file]);
      ProcessIsWritten(fs, fs.files[file], stack + [file], New(c.limits));
      if inner.Ok? { MergeIsApply(c, inner.value); }
    }
  }

  lemma {:induction false} IncludeAllIsWritten(fs: Files, list: seq<string>, stack: seq<string>, c: Config)
    ensures IncludeAll(fs, list, stack, c) == Written(c, ExpandFiles(fs, list, stack))
    decreases Unvisited(fs, stack), 0, 1 + |list|
  {
    if list != [] {
      WrittenThen(c, ExpandFile(fs, list[0], true, stack), ExpandFiles(fs, list[1..], stack));
      IncludeIsWritten(fs, list[0], true, stack, c);
      var r := IncludeFile(fs, list[0], true, stack, c);
      if r.Ok? { IncludeAllIsWritten(fs, list[1..], stack, r.value); }
    }
  }

  /**
   Loading a file with its includes, whatever they include in turn, is loading the one file in which
   every include is replaced by what it expands to: the same configuration or the same error.
   */
  lemma LoadIsInlining(fs: Files, file: string, limits: map<string, int>)
    requires file in fs.files
    ensures Load(fs, file, limits) ==
            match Expand(fs, fs.files[file], [])
            case Err(e) => Err(e)
            case Ok(ds) => var c := ApplyAll(New(limits), ds); if c.listen == [] then Err(NoListen) else Ok(c)
  {
    ProcessIsWritten(fs, fs.files[file], [], New(limits));
  }
}
