/**
 * DataFixer (Datafixers/DataFixer.cs, Datafixers/IDataFix.cs): a registry of
 * data fixes keyed by the version they migrate to, kept in ascending version
 * order as a SortedDictionary keeps its keys, and `Migrate`, which applies,
 * version by version and in registration order, every fix whose version lies
 * between the two bounds.
 *
 * The registry is static in the source; here it is the state of one
 * `DataFixer` object. A fix's generic `Apply<TFormat>` is a function on the
 * `Dynamic` of the registry's format.
 */
module DataFixers {
  import opened Results
  import opened DynamicOps
  import opened Dynamics

  datatype VersionFields = Version(major: nat, minor: nat, build: int, revision: int)

  /**
   * System.Version: `build` and `revision` are -1 when not given, and a
   * revision is given only together with a build.
   */
  type Version = v: VersionFields | v.build >= -1 && v.revision >= -1 && (v.build == -1 ==> v.revision == -1)
    witness Version(0, 0, -1, -1)

  /** Version.CompareTo: the four components compared in order. */
  predicate Less(a: Version, b: Version)
  {
    a.major < b.major
    || (a.major == b.major && a.minor < b.minor)
    || (a.major == b.major && a.minor == b.minor && a.build < b.build)
    || (a.major == b.major && a.minor == b.minor && a.build == b.build && a.revision < b.revision)
  }

  lemma LessIsStrictTotal(a: Version, b: Version, c: Version)
    ensures !Less(a, a)
    ensures Less(a, b) && Less(b, c) ==> Less(a, c)
    ensures a == b || Less(a, b) || Less(b, a)
  {
  }

  function DigitChar(d: nat): char
    requires d < 10
  {
    ('0' as int + d) as char
  }

  function Digits(n: nat): string
    decreases n
  {
    if n < 10 then [DigitChar(n)] else Digits(n / 10) + [DigitChar(n % 10)]
  }

  /** Version.ToString: two, three or four components, as many as are defined. */
  function VersionString(v: Version): string
  {
    var head := Digits(v.major) + "." + Digits(v.minor);
    if v.build < 0 then head
    else if v.revision < 0 then head + "." + Digits(v.build)
    else head + "." + Digits(v.build) + "." + Digits(v.revision)
  }

  predicate IsDigits(s: string)
  {
    forall i | 0 <= i < |s| :: '0' <= s[i] <= '9'
  }

  /** The number a string of decimal digits denotes. */
  function DigitsValue(s: string): nat
    requires IsDigits(s)
    decreases |s|
  {
    if |s| == 0 then 0 else DigitsValue(s[..|s| - 1]) * 10 + (s[|s| - 1] as int - '0' as int)
  }

  /** The parts of a string between its dots, in order. */
  function DotFields(s: string): (r: seq<string>)
    ensures |r| > 0
    decreases |s|
  {
    if |s| == 0 then [""]
    else
      var rest := DotFields(s[1..]);
      if s[0] == '.' then [""] + rest else [[s[0]] + rest[0]] + rest[1..]
  }

  /** Version.Parse on plain decimal text: two to four dot-separated components, each a non-empty run of digits. */
  function ParseVersion(s: string): Option<Version>
  {
    var f := DotFields(s);
    if |f| < 2 || |f| > 4 || exists i | 0 <= i < |f| :: f[i] == [] || !IsDigits(f[i]) then None
    else
      var v: Version := Version(DigitsValue(f[0]), DigitsValue(f[1]),
                                if |f| > 2 then DigitsValue(f[2]) else -1,
                                if |f| > 3 then DigitsValue(f[3]) else -1);
      Some(v)
  }

  lemma {:induction false} DigitsDenote(n: nat)
    ensures |Digits(n)| > 0 && IsDigits(Digits(n)) && '.' !in Digits(n)
    ensures DigitsValue(Digits(n)) == n
    decreases n
  {
    var d := Digits(n);
    if n >= 10 {
      DigitsDenote(n / 10);
      assert d == Digits(n / 10) + [DigitChar(n % 10)];
      assert d[..|d| - 1] == Digits(n / 10);
    }
    assert '.' !in d by {
      forall i | 0 <= i < |d| ensures d[i] != '.' {
        assert '0' <= d[i] <= '9';
      }
    }
  }

  /** What ParseVersion gives for two to four fields of digits. */
  lemma ParseFields(s: string, f: seq<string>)
    requires DotFields(s) == f && 2 <= |f| <= 4
    requires forall i | 0 <= i < |f| :: |f[i]| > 0 && IsDigits(f[i])
    ensures ParseVersion(s).Some?
    ensures ParseVersion(s).value == Version(DigitsValue(f[0]), DigitsValue(f[1]),
                                             if |f| > 2 then DigitsValue(f[2]) else -1,
                                             if |f| > 3 then DigitsValue(f[3]) else -1)
  {
  }

  lemma {:induction false} DotFieldsOfPart(a: string, b: string)
    requires '.' !in a
    ensures DotFields(a) == [a]
    ensures DotFields(a + "." + b) == [a] + DotFields(b)
    decreases |a|
  {
    if |a| > 0 {
      var tail := a[1..];
      assert '.' !in tail && a[0] != '.' by {
        forall i | 0 <= i < |tail| ensures tail[i] != '.' { assert tail[i] == a[i + 1]; }
        assert a[0] in a;
      }
      DotFieldsOfPart(tail, b);
      assert a == [a[0]] + tail;
      assert (a + "." + b)[0] == a[0];
      assert (a + "." + b)[1..] == tail + "." + b;
    } else {
      assert a + "." + b == "." + b;
      assert ("." + b)[1..] == b;
    }
  }

  lemma DotFields2(a: string, b: string)
    requires '.' !in a && '.' !in b
    ensures DotFields(a + "." + b) == [a, b]
  {
    DotFieldsOfPart(a, b);
    DotFieldsOfPart(b, "");
  }

  lemma DotFields3(a: string, b: string, c: string)
    requires '.' !in a && '.' !in b && '.' !in c
    ensures DotFields(a + "." + b + "." + c) == [a, b, c]
  {
    assert a + "." + b + "." + c == a + "." + (b + "." + c);
    DotFieldsOfPart(a, b + "." + c);
    DotFields2(b, c);
  }

  lemma DotFields4(a: string, b: string, c: string, d: string)
    requires '.' !in a && '.' !in b && '.' !in c && '.' !in d
    ensures DotFields(a + "." + b + "." + c + "." + d) == [a, b, c, d]
  {
    assert a + "." + b + "." + c + "." + d == a + "." + (b + "." + c + "." + d);
    DotFieldsOfPart(a, b + "." + c + "." + d);
    DotFields3(b, c, d);
  }

  /**
   * Version.ToString prints as many components as are defined, and
   * Version.Parse reads every version back from it.
   */
  lemma VersionStrings(v: Version)
    ensures |DotFields(VersionString(v))| == 2 + (if v.build >= 0 then 1 else 0) + (if v.revision >= 0 then 1 else 0)
    ensures ParseVersion(VersionString(v)) == Some(v)
  {
    DigitsDenote(v.major);
    DigitsDenote(v.minor);
    if v.build < 0 {
      VersionStringOfTwo(v);
      ParseFields(VersionString(v), [Digits(v.major), Digits(v.minor)]);
    } else if v.revision < 0 {
      VersionStringOfThree(v);
      DigitsDenote(v.build);
      ParseFields(VersionString(v), [Digits(v.major), Digits(v.minor), Digits(v.build)]);
    } else {
      VersionStringOfFour(v);
      DigitsDenote(v.build);
      DigitsDenote(v.revision);
      ParseFields(VersionString(v), [Digits(v.major), Digits(v.minor), Digits(v.build), Digits(v.revision)]);
    }
  }

  lemma VersionStringOfTwo(v: Version)
    requires v.build < 0
    ensures DotFields(VersionString(v)) == [Digits(v.major), Digits(v.minor)]
  {
    DigitsDenote(v.major);
    DigitsDenote(v.minor);
    DotFields2(Digits(v.major), Digits(v.minor));
  }

  lemma VersionStringOfThree(v: Version)
    requires v.build >= 0 && v.revision < 0
    ensures DotFields(VersionString(v)) == [Digits(v.major), Digits(v.minor), Digits(v.build)]
  {
    DigitsDenote(v.major);
    DigitsDenote(v.minor);
    DigitsDenote(v.build);
    DotFields3(Digits(v.major), Digits(v.minor), Digits(v.build));
  }

  lemma VersionStringOfFour(v: Version)
    requires v.build >= 0 && v.revision >= 0
    ensures DotFields(VersionString(v)) == [Digits(v.major), Digits(v.minor), Digits(v.build), Digits(v.revision)]
  {
    DigitsDenote(v.major);
    DigitsDenote(v.minor);
    DigitsDenote(v.build);
    DigitsDenote(v.revision);
    DotFields4(Digits(v.major), Digits(v.minor), Digits(v.build), Digits(v.revision));
  }

  /** IDataFix: the version it migrates to and what it does to the data. */
  datatype DataFix<!F> = DataFix(since: Version, apply: Dynamic<F> -> DataResult<Dynamic<F>>)

  type Registry<!F> = seq<(Version, seq<DataFix<F>>)>

  /** Versions strictly ascending, and every fix filed under its own version. */
  ghost predicate WellFormed<F>(entries: Registry<F>)
  {
    (forall i, j | 0 <= i < j < |entries| :: Less(entries[i].0, entries[j].0))
    && (forall i, k | 0 <= i < |entries| && 0 <= k < |entries[i].1| :: entries[i].1[k].since == entries[i].0)
  }

  /** The fixes registered for version `v`, in registration order. */
  function FixesFor<F>(entries: Registry<F>, v: Version): seq<DataFix<F>>
  {
    if |entries| == 0 then []
    else if entries[0].0 == v then entries[0].1
    else FixesFor(entries[1..], v)
  }

  /**
   * `TryAdd(since, new())` followed by `[since].Add(fix)` on the sorted
   * dictionary: a new version gets a one-fix list in its place in the order,
   * a known one gets the fix at the end of its list.
   */
  function Register<F>(entries: Registry<F>, fix: DataFix<F>): Registry<F>
  {
    if |entries| == 0 then [(fix.since, [fix])]
    else if entries[0].0 == fix.since then [(entries[0].0, entries[0].1 + [fix])] + entries[1..]
    else if Less(fix.since, entries[0].0) then [(fix.since, [fix])] + entries
    else [entries[0]] + Register(entries[1..], fix)
  }

  /** Every version of the registry comes after `v`. */
  ghost predicate AllAfter<F>(v: Version, entries: Registry<F>)
  {
    forall i | 0 <= i < |entries| :: Less(v, entries[i].0)
  }

  lemma {:induction false} RegisterVersions<F>(entries: Registry<F>, fix: DataFix<F>, v: Version)
    requires WellFormed(entries)
    requires AllAfter(v, entries) && Less(v, fix.since)
    ensures AllAfter(v, Register(entries, fix))
    decreases |entries|
  {
    if |entries| > 0 && entries[0].0 != fix.since && !Less(fix.since, entries[0].0) {
      RegisterVersions(entries[1..], fix, v);
      var r := Register(entries, fix);
      assert r == [entries[0]] + Register(entries[1..], fix);
      forall i | 0 <= i < |r|
        ensures Less(v, r[i].0)
      {
        if i > 0 {
          assert r[i] == Register(entries[1..], fix)[i - 1];
        }
      }
    }
  }

  /** Registering keeps the registry well formed. */
  lemma {:induction false} RegisterWellFormed<F>(entries: Registry<F>, fix: DataFix<F>)
    requires WellFormed(entries)
    ensures WellFormed(Register(entries, fix))
    decreases |entries|
  {
    if |entries| > 0 && entries[0].0 != fix.since && !Less(fix.since, entries[0].0) {
      var tail := entries[1..];
      assert WellFormed(tail) by {
        forall i, j | 0 <= i < j < |tail| ensures Less(tail[i].0, tail[j].0) {
          assert tail[i] == entries[i + 1] && tail[j] == entries[j + 1];
        }
        forall i, k | 0 <= i < |tail| && 0 <= k < |tail[i].1| ensures tail[i].1[k].since == tail[i].0 {
          assert tail[i] == entries[i + 1];
        }
      }
      RegisterWellFormed(tail, fix);
      assert AllAfter(entries[0].0, tail) by {
        forall i | 0 <= i < |tail| ensures Less(entries[0].0, tail[i].0) {
          assert tail[i] == entries[i + 1];
        }
      }
      LessIsStrictTotal(entries[0].0, fix.since, fix.since);
      RegisterVersions(tail, fix, entries[0].0);
      var r := Register(entries, fix);
      assert r == [entries[0]] + Register(tail, fix);
      forall i, j | 0 <= i < j < |r| ensures Less(r[i].0, r[j].0) {
        if i > 0 {
          assert r[i] == Register(tail, fix)[i - 1] && r[j] == Register(tail, fix)[j - 1];
        } else {
          assert r[j] == Register(tail, fix)[j - 1];
        }
      }
      forall i, k | 0 <= i < |r| && 0 <= k < |r[i].1| ensures r[i].1[k].since == r[i].0 {
        if i > 0 {
          assert r[i] == Register(tail, fix)[i - 1];
        }
      }
    } else if |entries| > 0 && entries[0].0 == fix.since {
      var r := Register(entries, fix);
      forall i, j | 0 <= i < j < |r| ensures Less(r[i].0, r[j].0) {
        assert r[i].0 == entries[i].0 && r[j].0 == entries[j].0;
      }
      forall i, k | 0 <= i < |r| && 0 <= k < |r[i].1| ensures r[i].1[k].since == r[i].0 {
        if i > 0 {
          assert r[i] == entries[i];
        }
      }
    } else if |entries| > 0 {
      var r := Register(entries, fix);
      forall i, j | 0 <= i < j < |r| ensures Less(r[i].0, r[j].0) {
        if i > 0 {
          assert r[i] == entries[i - 1] && r[j] == entries[j - 1];
        } else {
          assert r[j] == entries[j - 1];
          LessIsStrictTotal(fix.since, entries[0].0, entries[j - 1].0);
        }
      }
      forall i, k | 0 <= i < |r| && 0 <= k < |r[i].1| ensures r[i].1[k].since == r[i].0 {
        if i > 0 {
          assert r[i] == entries[i - 1];
        }
      }
    }
  }

  /** The registry after its first version is well formed, and every version in it comes later. */
  lemma TailWellFormed<F>(entries: Registry<F>)
    requires WellFormed(entries) && |entries| > 0
    ensures WellFormed(entries[1..]) && AllAfter(entries[0].0, entries[1..])
  {
    var tail := entries[1..];
    forall i, j | 0 <= i < j < |tail| ensures Less(tail[i].0, tail[j].0) {
      assert tail[i] == entries[i + 1] && tail[j] == entries[j + 1];
    }
    forall i, k | 0 <= i < |tail| && 0 <= k < |tail[i].1| ensures tail[i].1[k].since == tail[i].0 {
      assert tail[i] == entries[i + 1];
    }
    forall i | 0 <= i < |tail| ensures Less(entries[0].0, tail[i].0) {
      assert tail[i] == entries[i + 1];
    }
  }

  /** A version before every registered one has no fixes. */
  lemma {:induction false} NoFixesBefore<F>(entries: Registry<F>, v: Version)
    requires AllAfter(v, entries)
    ensures FixesFor(entries, v) == []
    decreases |entries|
  {
    if |entries| > 0 {
      LessIsStrictTotal(v, v, v);
      assert AllAfter(v, entries[1..]) by {
        forall i | 0 <= i < |entries[1..]| ensures Less(v, entries[1..][i].0) {
          assert entries[1..][i] == entries[i + 1];
        }
      }
      NoFixesBefore(entries[1..], v);
    }
  }

  /** Registering adds the fix at the end of its own version's list and changes no other version. */
  lemma {:induction false} RegisterAppends<F>(entries: Registry<F>, fix: DataFix<F>, v: Version)
    requires WellFormed(entries)
    ensures FixesFor(Register(entries, fix), v) == FixesFor(entries, v) + (if v == fix.since then [fix] else [])
    decreases |entries|
  {
    if |entries| > 0 && entries[0].0 != fix.since && !Less(fix.since, entries[0].0) {
      TailWellFormed(entries);
      RegisterAppends(entries[1..], fix, v);
      assert Register(entries, fix)[1..] == Register(entries[1..], fix);
    } else if |entries| > 0 && entries[0].0 == fix.since {
      assert Register(entries, fix)[1..] == entries[1..];
    } else if |entries| > 0 {
      assert Register(entries, fix)[1..] == entries;
      if v == fix.since {
        TailWellFormed(entries);
        forall i | 0 <= i < |entries| ensures Less(v, entries[i].0) {
          if i > 0 {
            assert entries[1..][i - 1] == entries[i];
            LessIsStrictTotal(v, entries[0].0, entries[i].0);
          }
        }
        NoFixesBefore(entries, v);
      }
    }
  }

  // ------------------------------------------------------------------ Migrate

  function CouldNotMigrate(version: Version, message: string): string
  {
    "Could not migrate data to version " + VersionString(version) + ": " + message
  }

  /** The inner loop of `Migrate`: one version's fixes in order, stopping at the first failure. */
  function ApplyFixes<F>(version: Version, fixes: seq<DataFix<F>>, migrating: Dynamic<F>): (r: DataResult<Dynamic<F>>)
    ensures r.Error? ==> r.partial.None?
    decreases |fixes|
  {
    if |fixes| == 0 then Success(migrating)
    else
      var applied := fixes[0].apply(migrating);
      if applied.Error? then Error(CouldNotMigrate(version, applied.message), None)
      else ApplyFixes(version, fixes[1..], applied.value)
  }

  /**
   * The outer loop of `Migrate`: versions before `fromVersion` are skipped and
   * the first version after `toVersion` ends the walk.
   */
  function MigrateFrom<F>(entries: Registry<F>, fromVersion: Version, toVersion: Version, migrating: Dynamic<F>): (r: DataResult<Dynamic<F>>)
    ensures r.Error? ==> r.partial.None?
    decreases |entries|
  {
    if |entries| == 0 then Success(migrating)
    else if Less(entries[0].0, fromVersion) then MigrateFrom(entries[1..], fromVersion, toVersion, migrating)
    else if Less(toVersion, entries[0].0) then Success(migrating)
    else
      var applied := ApplyFixes(entries[0].0, entries[0].1, migrating);
      if applied.Error? then applied
      else MigrateFrom(entries[1..], fromVersion, toVersion, applied.value)
  }

  /** `Migrate` as a function: the migrated value, or the failure naming the version. */
  function MigrateSpec<F>(entries: Registry<F>, fromVersion: Version, toVersion: Version, ops: Ops<F>, data: F): DataResult<F>
  {
    var migrated := MigrateFrom(entries, fromVersion, toVersion, Dynamic(ops, data));
    if migrated.Error? then Error(migrated.message, None) else Success(migrated.value.value)
  }

  class DataFixer<F> {
    var fixes: Registry<F>

    ghost predicate Valid()
      reads this
    {
      WellFormed(fixes)
    }

    constructor ()
      ensures Valid() && fixes == []
    {
      fixes := [];
    }

    /** `RegisterDatafix`: the fix joins the list of its version. */
    method RegisterDatafix(fix: DataFix<F>)
      requires Valid()
      modifies this
      ensures Valid()
      ensures fixes == Register(old(fixes), fix)
      ensures forall v :: FixesFor(fixes, v) == FixesFor(old(fixes), v) + (if v == fix.since then [fix] else [])
    {
      RegisterWellFormed(fixes, fix);
      forall v ensures FixesFor(Register(fixes, fix), v) == FixesFor(fixes, v) + (if v == fix.since then [fix] else []) {
        RegisterAppends(fixes, fix, v);
      }
      fixes := Register(fixes, fix);
    }

    /** `Migrate`: the nested loops over versions and their fixes. */
    method Migrate(fromVersion: Version, toVersion: Version, ops: Ops<F>, data: F) returns (r: DataResult<F>)
      ensures r == MigrateSpec(fixes, fromVersion, toVersion, ops, data)
    {
      var migrating := Dynamic(ops, data);
      var i := 0;
      while i < |fixes|
        invariant 0 <= i <= |fixes|
        invariant MigrateFrom(fixes, fromVersion, toVersion, Dynamic(ops, data))
          == MigrateFrom(fixes[i..], fromVersion, toVersion, migrating)
      {
        var (version, versionFixes) := fixes[i];
        assert fixes[i..][1..] == fixes[i + 1..];
        if Less(version, fromVersion) {
          i := i + 1;
          continue;
        }
        if Less(toVersion, version) {
          break;
        }
        var start := migrating;
        var j := 0;
        while j < |versionFixes|
          invariant 0 <= j <= |versionFixes|
          invariant ApplyFixes(version, versionFixes, start) == ApplyFixes(version, versionFixes[j..], migrating)
        {
          var applied := versionFixes[j].apply(migrating);
          assert versionFixes[j..][1..] == versionFixes[j + 1..];
          if applied.Error? {
            return Fail(CouldNotMigrate(version, applied.ErrorMessage()), None);
          }
          migrating := applied.GetOrThrow();
          j := j + 1;
        }
        i := i + 1;
      }
      return Success(migrating.value);
    }
  }

  // ---------------------------------------------------- reference definition

  /** Every fix of the registry whose version lies in `[fromVersion, toVersion]`, tagged with it, in order. */
  function InRange<F>(entries: Registry<F>, fromVersion: Version, toVersion: Version): seq<(Version, DataFix<F>)>
    decreases |entries|
  {
    if |entries| == 0 then []
    else
      var v := entries[0].0;
      (if !Less(v, fromVersion) && !Less(toVersion, v) then Tagged(entries[0]) else [])
        + InRange(entries[1..], fromVersion, toVersion)
  }

  function Tagged<F>(entry: (Version, seq<DataFix<F>>)): seq<(Version, DataFix<F>)>
  {
    seq(|entry.1|, k requires 0 <= k < |entry.1| => (entry.0, entry.1[k]))
  }

  /** Applying tagged fixes in order, a failure naming the fix's version. */
  function ApplyAll<F>(fixes: seq<(Version, DataFix<F>)>, migrating: Dynamic<F>): DataResult<Dynamic<F>>
    decreases |fixes|
  {
    if |fixes| == 0 then Success(migrating)
    else
      var applied := fixes[0].1.apply(migrating);
      if applied.Error? then Error(CouldNotMigrate(fixes[0].0, applied.message), None)
      else ApplyAll(fixes[1..], applied.value)
  }

  lemma {:induction false} ApplyAllAppend<F>(a: seq<(Version, DataFix<F>)>, b: seq<(Version, DataFix<F>)>, m: Dynamic<F>)
    ensures ApplyAll(a + b, m) == (var ra := ApplyAll(a, m); if ra.Error? then ra else ApplyAll(b, ra.value))
    decreases |a|
  {
    if |a| > 0 {
      assert (a + b)[1..] == a[1..] + b;
      var applied := a[0].1.apply(m);
      if applied.Success? {
        ApplyAllAppend(a[1..], b, applied.value);
      }
    } else {
      assert a + b == b;
    }
  }

  lemma {:induction false} ApplyFixesIsApplyAll<F>(entry: (Version, seq<DataFix<F>>), m: Dynamic<F>)
    ensures ApplyFixes(entry.0, entry.1, m) == ApplyAll(Tagged(entry), m)
    decreases |entry.1|
  {
    if |entry.1| > 0 {
      var applied := entry.1[0].apply(m);
      assert Tagged(entry)[1..] == Tagged((entry.0, entry.1[1..]));
      if applied.Success? {
        ApplyFixesIsApplyAll((entry.0, entry.1[1..]), applied.value);
      }
    }
  }

  lemma {:induction false} NothingInRangeAfter<F>(entries: Registry<F>, fromVersion: Version, toVersion: Version)
    requires AllAfter(toVersion, entries)
    ensures InRange(entries, fromVersion, toVersion) == []
    decreases |entries|
  {
    if |entries| > 0 {
      assert AllAfter(toVersion, entries[1..]) by {
        forall i | 0 <= i < |entries[1..]| ensures Less(toVersion, entries[1..][i].0) {
          assert entries[1..][i] == entries[i + 1];
        }
      }
      NothingInRangeAfter(entries[1..], fromVersion, toVersion);
    }
  }

  /**
   * On a well-formed registry `Migrate` applies exactly the fixes whose
   * version lies between the bounds (both included), in ascending version
   * order and in registration order within a version: the early `break` loses
   * nothing because later versions are larger still.
   */
  lemma {:induction false} MigrateAppliesRange<F>(entries: Registry<F>, fromVersion: Version, toVersion: Version, m: Dynamic<F>)
    requires WellFormed(entries)
    ensures MigrateFrom(entries, fromVersion, toVersion, m) == ApplyAll(InRange(entries, fromVersion, toVersion), m)
    decreases |entries|
  {
    if |entries| > 0 {
      var tail := entries[1..];
      var v := entries[0].0;
      assert WellFormed(tail) by {
        forall i, j | 0 <= i < j < |tail| ensures Less(tail[i].0, tail[j].0) {
          assert tail[i] == entries[i + 1] && tail[j] == entries[j + 1];
        }
        forall i, k | 0 <= i < |tail| && 0 <= k < |tail[i].1| ensures tail[i].1[k].since == tail[i].0 {
          assert tail[i] == entries[i + 1];
        }
      }
      if Less(v, fromVersion) {
        MigrateAppliesRange(tail, fromVersion, toVersion, m);
        assert MigrateFrom(entries, fromVersion, toVersion, m) == MigrateFrom(tail, fromVersion, toVersion, m);
        assert InRange(entries, fromVersion, toVersion) == [] + InRange(tail, fromVersion, toVersion);
        assert [] + InRange(tail, fromVersion, toVersion) == InRange(tail, fromVersion, toVersion);
      } else if Less(toVersion, v) {
        assert AllAfter(toVersion, tail) by {
          forall i | 0 <= i < |tail| ensures Less(toVersion, tail[i].0) {
            assert tail[i] == entries[i + 1];
            LessIsStrictTotal(toVersion, v, tail[i].0);
          }
        }
        NothingInRangeAfter(tail, fromVersion, toVersion);
        assert InRange(entries, fromVersion, toVersion) == [] + [];
      } else {
        ApplyFixesIsApplyAll(entries[0], m);
        ApplyAllAppend(Tagged(entries[0]), InRange(tail, fromVersion, toVersion), m);
        var applied := ApplyFixes(v, entries[0].1, m);
        if applied.Success? {
          MigrateAppliesRange(tail, fromVersion, toVersion, applied.value);
        }
      }
    }
  }

  /** A registry with nothing between the bounds hands the data back unchanged. */
  lemma MigrateOutsideRangeIsIdentity<F>(entries: Registry<F>, fromVersion: Version, toVersion: Version, ops: Ops<F>, data: F)
    requires WellFormed(entries)
    requires InRange(entries, fromVersion, toVersion) == []
    ensures MigrateSpec(entries, fromVersion, toVersion, ops, data) == Success(data)
  {
    MigrateAppliesRange(entries, fromVersion, toVersion, Dynamic(ops, data));
  }
}
