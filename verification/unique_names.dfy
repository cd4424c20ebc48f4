/** Unique connection names, ":MAJOR.MINOR" (bus/driver.c, create_unique_client_name). */
module UniqueNames {
  import opened BusTypes
  import opened ListFacts

  /** Decimal digits of `n`, most significant first (`_dbus_string_append_int` on a non-negative value). */
  function Decimal(n: nat): (s: string)
    ensures |s| > 0
    ensures forall i :: 0 <= i < |s| ==> '0' <= s[i] <= '9'
  {
    var d := [('0' as int + n % 10) as char];
    if n < 10 then d else Decimal(n / 10) + d
  }

  function UniqueName(major: nat, minor: nat): (s: Name)
    ensures |s| > 0 && s[0] == ':'
  {
    ":" + Decimal(major) + "." + Decimal(minor)
  }

  lemma {:induction false} DecimalInjective(a: nat, b: nat)
    requires Decimal(a) == Decimal(b)
    ensures a == b
  {
    var s, t := Decimal(a), Decimal(b);
    assert s[|s| - 1] == ('0' as int + a % 10) as char;
    assert t[|t| - 1] == ('0' as int + b % 10) as char;
    if a >= 10 && b >= 10 {
      assert Decimal(a / 10) == s[..|s| - 1];
      assert Decimal(b / 10) == t[..|t| - 1];
      DecimalInjective(a / 10, b / 10);
    }
  }

  /** No two (major, minor) pairs print as the same name. */
  lemma UniqueNameInjective(major: nat, minor: nat, major': nat, minor': nat)
    requires UniqueName(major, minor) == UniqueName(major', minor')
    ensures major == major' && minor == minor'
  {
    var a, b, a', b' := Decimal(major), Decimal(minor), Decimal(major'), Decimal(minor');
    var s := UniqueName(major, minor);
    assert forall i :: 0 <= i < |a| ==> s[1 + i] == a[i];
    assert forall i :: 0 <= i < |a'| ==> s[1 + i] == a'[i];
    assert s[1 + |a|] == '.' && s[1 + |a'|] == '.';
    assert a == s[1..1 + |a|] == a';
    assert b == s[2 + |a|..] == b';
    DecimalInjective(major, major');
    DecimalInjective(minor, minor');
  }

  /** The two static counters; both start at zero. */
  datatype Counters = Counters(major: int, minor: int) {

    /** Counters that a run of the generator can hold. */
    predicate Valid() {
      0 <= major <= INT_MAX && INT_MIN <= minor <= INT_MAX && (major == 0 ==> minor <= 0)
    }

    /** The daemon stops when major numbers run out. */
    predicate Exhausted() {
      minor <= 0 && major == INT_MAX
    }

    /** The pair the next name is printed from. */
    function NextMajor(): int { if minor <= 0 then major + 1 else major }
    function NextMinor(): int { if minor <= 0 then 0 else minor }

    function NextName(): Name
      requires Valid()
    {
      UniqueName(NextMajor(), NextMinor())
    }

    /** The counters after issuing `NextName()`: the minor number wraps like a C int. */
    function Issue(): Counters
    {
      Counters(NextMajor(), Wrap32(NextMinor() + 1))
    }

    /** The pair (a, b) comes before the next one to be issued. */
    predicate Before(a: int, b: int) {
      1 <= a && 0 <= b <= INT_MAX && (a < NextMajor() || (a == NextMajor() && b < NextMinor()))
    }

    /** `n` may have been issued already. */
    ghost predicate Issued(n: Name) {
      exists a: nat, b: nat :: Before(a, b) && n == UniqueName(a, b)
    }
  }

  const INITIAL: Counters := Counters(0, 0)

  /** Issuing moves strictly forward in the lexicographic order, across the wrap of the minor number too. */
  lemma IssueMovesForward(c: Counters)
    requires c.Valid() && !c.Exhausted()
    ensures c.Issue().Valid()
    ensures !c.Before(c.NextMajor(), c.NextMinor())
    ensures c.Issue().Before(c.NextMajor(), c.NextMinor())
    ensures forall a, b :: c.Before(a, b) ==> c.Issue().Before(a, b)
  {
  }

  /** The next name was never issued before; after issuing it counts as issued, and so do all earlier ones. */
  lemma NextNameIsFresh(c: Counters)
    requires c.Valid() && !c.Exhausted()
    ensures !c.Issued(c.NextName())
    ensures c.Issue().Valid()
    ensures c.Issue().Issued(c.NextName())
    ensures forall n :: c.Issued(n) ==> c.Issue().Issued(n)
  {
    IssueMovesForward(c);
    forall a: nat, b: nat | c.Before(a, b)
      ensures UniqueName(a, b) != c.NextName()
    {
      if UniqueName(a, b) == c.NextName() {
        UniqueNameInjective(a, b, c.NextMajor(), c.NextMinor());
      }
    }
    forall n | c.Issued(n)
      ensures c.Issue().Issued(n)
    {
      var a: nat, b: nat :| c.Before(a, b) && n == UniqueName(a, b);
      assert c.Issue().Before(a, b);
    }
  }

  /** The names a run of `k` issues hands out, oldest first. */
  function IssuedNames(c: Counters, k: nat): (names: seq<Name>)
    requires c.Valid()
    ensures |names| <= k
    decreases k
  {
    if k == 0 || c.Exhausted() then []
    else
      IssueMovesForward(c);
      [c.NextName()] + IssuedNames(c.Issue(), k - 1)
  }

  /** Over any run, of any length and from any reachable counters, no name is handed out twice. */
  lemma {:induction false} NamesNeverRepeat(c: Counters, k: nat)
    requires c.Valid()
    ensures forall n :: n in IssuedNames(c, k) ==> !c.Issued(n)
    ensures NoDup(IssuedNames(c, k))
    decreases k
  {
    if k == 0 || c.Exhausted() {
    } else {
      var first, rest := c.NextName(), IssuedNames(c.Issue(), k - 1);
      NextNameIsFresh(c);
      NamesNeverRepeat(c.Issue(), k - 1);
      assert first !in rest;
      NoDupCons(first, rest);
      assert IssuedNames(c, k) == [first] + rest;
    }
  }
}
