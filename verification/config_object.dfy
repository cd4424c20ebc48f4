/**
 The configuration parser as the daemon runs it: fields and the stack of included files change in
 place, and merging moves list links (bus/config-parser.c:186-353, 2036-2107, 2143-2233; bus/policy.c:605-693).
 */
module ConfigObject {
  import opened BusTypes
  import opened Policy
  import opened PolicyLayers
  import opened ConfigIncludes

  // ----- merging lists and tables

  method MoveLinks(dest: seq<string>, source: seq<string>) returns (r: seq<string>)
    ensures r == dest + source
  {
    r := dest;
    var left := source;
    while left != []
      invariant r + left == dest + source
      decreases |left|
    {
      r, left := r + [left[0]], left[1..];
    }
  }

  method FindDir(dirs: seq<string>, dir: string) returns (found: bool)
    ensures found <==> dir in dirs
  {
    for i := 0 to |dirs|
      invariant dir !in dirs[..i]
    {
      if dirs[i] == dir {
        return true;
      }
    }
    return false;
  }

  method MoveLinksUnique(dest: seq<string>, source: seq<string>) returns (r: seq<string>)
    ensures r == AddAllUnique(dest, source)
  {
    r := dest;
    for i := 0 to |source|
      invariant r == AddAllUnique(dest, source[..i])
    {
      assert source[..i + 1][..i] == source[..i];
      var found := FindDir(r, source[i]);
      if !found {
        r := r + [source[i]];
      }
    }
    assert source[..|source|] == source;
  }

  method AppendPolicyList(list: seq<Rule>, toAppend: seq<Rule>) returns (r: seq<Rule>)
    ensures r == list + toAppend
  {
    r := list;
    for i := 0 to |toAppend|
      invariant r == list + toAppend[..i]
    {
      r := r + [toAppend[i]];
    }
  }

  lemma MergeOne(dest: map<int, seq<Rule>>, toAbsorb: map<int, seq<Rule>>, left: set<int>, id: int)
    requires id in left && id in toAbsorb
    ensures var r := MergeTable(dest, toAbsorb - left);
            MergeTable(dest, toAbsorb - (left - {id})) == r[id := ListFor(r, id) + toAbsorb[id]]
  {
    var was, now := toAbsorb - left, toAbsorb - (left - {id});
    var r := MergeTable(dest, was);
    assert now.Keys == was.Keys + {id};
    assert ListFor(was, id) == [] && ListFor(r, id) == ListFor(dest, id) && ListFor(now, id) == toAbsorb[id];
    assert forall k :: k != id ==> ListFor(now, k) == ListFor(was, k);
  }

  lemma SomeId(ids: set<int>)
    requires ids != {}
    ensures exists id :: id in ids
  {
    assert (forall id :: id !in ids) ==> ids == {};
  }

  /** The table iterators give the keys in no particular order. */
  method MergeIdHash(dest: map<int, seq<Rule>>, toAbsorb: map<int, seq<Rule>>) returns (r: map<int, seq<Rule>>)
    ensures r == MergeTable(dest, toAbsorb)
  {
    r := dest;
    var left := toAbsorb.Keys;
    assert toAbsorb - left == map[];
    MergeEmpty(dest);
    while left != {}
      invariant left <= toAbsorb.Keys && r == MergeTable(dest, toAbsorb - left)
      decreases |left|
    {
      SomeId(left);
      var id :| id in left;
      MergeOne(dest, toAbsorb, left, id);
      var list := AppendPolicyList(ListFor(r, id), toAbsorb[id]);
      r := r[id := list];
      left := left - {id};
    }
    assert toAbsorb - left == toAbsorb;
  }

  method MergePolicies(p: BusPolicy, q: BusPolicy) returns (r: BusPolicy)
    ensures r == MergePolicy(p, q)
  {
    var defaults := AppendPolicyList(p.defaults, q.defaults);
    var mandatory := AppendPolicyList(p.mandatory, q.mandatory);
    var atConsole := AppendPolicyList(p.atConsole, q.atConsole);
    var notAtConsole := AppendPolicyList(p.notAtConsole, q.notAtConsole);
    var byUid := MergeIdHash(p.byUid, q.byUid);
    var byGid := MergeIdHash(p.byGid, q.byGid);
    r := BusPolicy(defaults, mandatory, byUid, byGid, atConsole, notAtConsole);
  }

  method MergeContexts(dest: map<string, string>, source: map<string, string>) returns (r: map<string, string>)
    ensures r == dest + source
  {
    r := dest;
    var left := source.Keys;
    while left != {}
      invariant left <= source.Keys
      invariant r.Keys == dest.Keys + (source.Keys - left)
      invariant forall s :: s in r ==> r[s] == if s in source && s !in left then source[s] else dest[s]
      decreases |left|
    {
      var s :| s in left;
      r := r[s := source[s]];
      left := left - {s};
    }
  }

  // ----- the parser

  class Parser {
    var user: Option<string>
    var busType: Option<string>
    var pidfile: Option<string>
    var helper: Option<string>
    var fork: bool
    var keepUmask: bool
    var syslog: bool
    var listen: seq<string>
    var mechanisms: seq<string>
    var serviceDirs: seq<string>
    var confDirs: seq<string>
    var policy: BusPolicy
    var contexts: map<string, string>
    var limits: map<string, int>
    var includedFiles: seq<string>

    ghost function View(): Config
      reads this
    {
      Config(user, busType, pidfile, helper, fork, keepUmask, syslog, listen, mechanisms, serviceDirs, confDirs, policy, contexts, limits)
    }

    /** A parser with the limits and the stack of its parent. */
    constructor (parentLimits: map<string, int>, parentStack: seq<string>)
      ensures View() == New(parentLimits) && includedFiles == parentStack
    {
      user, busType, pidfile, helper := None, None, None, None;
      fork, keepUmask, syslog := false, false, false;
      listen, mechanisms, serviceDirs, confDirs := [], [], [], [];
      policy, contexts, limits := NO_POLICY, map[], parentLimits;
      includedFiles := parentStack;
    }

    method ObeySetting(d: Plain)
      requires d.SetUser? || d.SetType? || d.SetPidfile? || d.SetHelper? || d.Fork? || d.KeepUmask? || d.Syslog?
      modifies this`user, this`busType, this`pidfile, this`helper, this`fork, this`keepUmask, this`syslog
      ensures View() == Apply(old(View()), d)
    {
      match d
      case SetUser(s) => user := Some(s);
      case SetType(s) => busType := Some(s);
      case SetPidfile(s) => pidfile := Some(s);
      case SetHelper(s) => helper := Some(s);
      case Fork => fork := true;
      case KeepUmask => keepUmask := true;
      case Syslog => syslog := true;
    }

    method ObeyList(d: Plain)
      requires d.Listen? || d.Auth? || d.ServiceDir? || d.ConfDir?
      modifies this`listen, this`mechanisms, this`serviceDirs, this`confDirs
      ensures View() == Apply(old(View()), d)
    {
      match d
      case Listen(s) => listen := listen + [s];
      case Auth(s) => mechanisms := mechanisms + [s];
      case ServiceDir(s) =>
        var found := FindDir(serviceDirs, s);
        if !found { serviceDirs := serviceDirs + [s]; }
      case ConfDir(s) => confDirs := confDirs + [s];
    }

    method Obey(d: Plain)
      modifies this
      ensures View() == Apply(old(View()), d) && includedFiles == old(includedFiles)
    {
      match d
      case AddRule(to, rule) => policy := Append(policy, to, rule);
      case Associate(service, context) => contexts := contexts[service := context];
      case Limit(name, value) => limits := limits[name := value];
      case Listen(_) => ObeyList(d);
      case Auth(_) => ObeyList(d);
      case ServiceDir(_) => ObeyList(d);
      case ConfDir(_) => ObeyList(d);
      case _ => ObeySetting(d);
    }

    method MergeSettings(included: Parser)
      requires included != this
      modifies this`user, this`busType, this`pidfile, this`fork, this`keepUmask
      modifies included`user, included`busType, included`pidfile
      ensures user == Or(old(user), old(included.user))
      ensures busType == Or(old(busType), old(included.busType))
      ensures pidfile == Or(old(pidfile), old(included.pidfile))
      ensures fork == (old(fork) || included.fork) && keepUmask == (old(keepUmask) || included.keepUmask)
    {
      if included.user.Some? {
        user, included.user := included.user, None;
      }
      if included.busType.Some? {
        busType, included.busType := included.busType, None;
      }
      if included.fork { fork := true; }
      if included.keepUmask { keepUmask := true; }
      if included.pidfile.Some? {
        pidfile, included.pidfile := included.pidfile, None;
      }
    }

    method MergeRules(included: Parser)
      modifies this`policy, this`contexts
      ensures policy == MergePolicy(old(policy), old(included.policy))
      ensures contexts == old(contexts + included.contexts)
    {
      var absorbed := included.contexts;
      policy := MergePolicies(policy, included.policy);
      contexts := MergeContexts(contexts, absorbed);
    }

    method MergeLists(included: Parser)
      requires included != this
      modifies this`listen, this`mechanisms, this`serviceDirs, this`confDirs
      modifies included`listen, included`mechanisms, included`serviceDirs, included`confDirs
      ensures listen == old(listen + included.listen) && mechanisms == old(mechanisms + included.mechanisms)
      ensures serviceDirs == AddAllUnique(old(serviceDirs), old(included.serviceDirs))
      ensures confDirs == old(confDirs + included.confDirs)
    {
      listen := MoveLinks(listen, included.listen);
      mechanisms := MoveLinks(mechanisms, included.mechanisms);
      serviceDirs := MoveLinksUnique(serviceDirs, included.serviceDirs);
      confDirs := MoveLinks(confDirs, included.confDirs);
      included.listen, included.mechanisms, included.serviceDirs, included.confDirs := [], [], [], [];
    }

    /** `merge_included`; it leaves the limits alone. */
    method MergeIncluded(included: Parser)
      requires included != this
      modifies this, included
      ensures View() == Merge(old(View()), old(included.View())).(limits := old(limits))
      ensures includedFiles == old(includedFiles)
      ensures included.limits == old(included.limits)
    {
      ghost var a, b := View(), included.View();
      MergeRules(included);
      MergeSettings(included);
      MergeLists(included);
      assert View() == Merge(a, b).(limits := a.limits);
    }

    /** What `include_file` does with a file it has read. */
    method TakeIncluded(included: Parser)
      requires included != this
      modifies this, included
      ensures View() == Merge(old(View()), old(included.View()))
      ensures includedFiles == old(includedFiles)
    {
      MergeIncluded(included);
      limits := included.limits;
    }

    method SeenInclude(file: string) returns (seen: bool)
      ensures seen <==> file in includedFiles
    {
      seen := FindDir(includedFiles, file);
    }

    /** `include_file`: on failure the parser is given up. */
    method IncludeFile(fs: Files, file: string, ignoreMissing: bool) returns (e: Option<Error>)
      modifies this
      ensures includedFiles == old(includedFiles)
      ensures match ConfigIncludes.IncludeFile(fs, file, ignoreMissing, old(includedFiles), old(View()))
              case Ok(c) => e == None && View() == c
              case Err(error) => e == Some(error)
      decreases Unvisited(fs, includedFiles), 0, 0
    {
      var seen := SeenInclude(file);
      if seen {
        return Some(Circular(file));
      }
      includedFiles := includedFiles + [file];
      var included: Parser? := null;
      if file !in fs.files {
        e := Some(FileNotFound);
      } else {
        included := new Parser(limits, includedFiles);
        VisitOne(fs, old(includedFiles), file);
        e := included.ProcessItems(fs, fs.files[file]);
      }
      includedFiles := includedFiles[..|includedFiles| - 1];
      if e.Some? {
        if e == Some(FileNotFound) && ignoreMissing {
          return None;
        }
        return;
      }
      TakeIncluded(included);
    }

    /** `include_dir` */
    method IncludeDirectory(fs: Files, dir: string) returns (e: Option<Error>)
      modifies this
      ensures includedFiles == old(includedFiles)
      ensures if dir !in fs.dirs then e == Some(FileNotFound)
              else
                match IncludeAll(fs, fs.dirs[dir], old(includedFiles), old(View()))
                case Ok(c) => e == None && View() == Apply(c, ConfDir(dir))
                case Err(error) => e == Some(error)
      decreases Unvisited(fs, includedFiles), 1, 0
    {
      if dir !in fs.dirs {
        return Some(FileNotFound);
      }
      var list := fs.dirs[dir];
      ghost var want := IncludeAll(fs, list, includedFiles, View());
      var i := 0;
      while i < |list|
        invariant 0 <= i <= |list| && includedFiles == old(includedFiles)
        invariant IncludeAll(fs, list[i..], includedFiles, View()) == want
      {
        assert list[i..][1..] == list[i + 1..];
        e := IncludeFile(fs, list[i], true);
        if e.Some? {
          return;
        }
        i := i + 1;
      }
      confDirs := confDirs + [dir];
      e := None;
    }

    /** The elements of a file, in order. */
    method ProcessItems(fs: Files, items: seq<Item>) returns (e: Option<Error>)
      modifies this
      ensures includedFiles == old(includedFiles)
      ensures match Process(fs, items, old(includedFiles), old(View()))
              case Ok(c) => e == None && View() == c
              case Err(error) => e == Some(error)
      decreases Unvisited(fs, includedFiles), 2, 0
    {
      ghost var want := Process(fs, items, includedFiles, View());
      var i := 0;
      while i < |items|
        invariant 0 <= i <= |items| && includedFiles == old(includedFiles)
        invariant Process(fs, items[i..], includedFiles, View()) == want
      {
        assert items[i..][1..] == items[i + 1..];
        match items[i] {
          case Plain(d) => Obey(d);
          case Malformed => return Some(Bad);
          case Include(file, ign) =>
            e := IncludeFile(fs, file, ign);
            if e.Some? { return; }
          case IncludeDir(dir) =>
            e := IncludeDirectory(fs, dir);
            if e.Some? { return; }
        }
        i := i + 1;
      }
      e := None;
    }
  }

  /** `bus_config_load` of the top-level file. */
  method LoadConfig(fs: Files, file: string, limits: map<string, int>) returns (parser: Parser, e: Option<Error>)
    ensures fresh(parser)
    ensures match Load(fs, file, limits)
            case Ok(c) => e == None && parser.View() == c
            case Err(error) => e == Some(error)
  {
    parser := new Parser(limits, []);
    if file !in fs.files {
      return parser, Some(FileNotFound);
    }
    e := parser.ProcessItems(fs, fs.files[file]);
    if e.None? && parser.listen == [] {
      e := Some(NoListen);
    }
  }
}
