/** The batch driver: list the icon directories, then generate every icon
    in every colour scheme, counting successes and collecting failures. */
module Batch {
  import opened Wrappers
  import opened Sorting
  import opened Generator

  /** One entry of a directory listing. */
  datatype Entry = Entry(name: string, isDir: bool)

  /** One generation that raised: icon, scheme, and what was raised. */
  datatype IconFailure = IconFailure(icon: string, config: string, fault: Fault)

  /** What the batch run did: the (icon, scheme) pairs it generated, in
      order, the count it reports as generated, and the failures. */
  datatype Report = Report(attempted: seq<(string, string)>, generated: nat, failed: seq<IconFailure>)

  /** Names of the entries that are directories, in listing order. */
  function DirNames(entries: seq<Entry>): (r: seq<string>)
    ensures |r| <= |entries|
    ensures forall x :: x in r <==> exists e :: e in entries && e.isDir && e.name == x
  {
    if |entries| == 0 then []
    else
      var rest := DirNames(entries[1..]);
      assert forall e :: e in entries[1..] ==> e in entries;
      assert forall e :: e in entries ==> e == entries[0] || e in entries[1..];
      if entries[0].isDir then [entries[0].name] + rest else rest
  }

  /** `get_all_icon_names`; `None` stands for a missing base directory. */
  function GetAllIconNames(listing: Option<seq<Entry>>): (r: seq<string>)
    ensures listing.None? ==> r == []
    ensures Sorted(r)
    ensures listing.Some? ==> multiset(r) == multiset(DirNames(listing.value))
  {
    match listing
    case None => []
    case Some(entries) => Sort(DirNames(entries))
  }

  /** The order in which the directory lists its entries does not change
      the names: they come back sorted either way. */
  lemma IconNamesIgnoreListingOrder(a: seq<Entry>, b: seq<Entry>)
    requires multiset(DirNames(a)) == multiset(DirNames(b))
    ensures GetAllIconNames(Some(a)) == GetAllIconNames(Some(b))
  {
    SortedUnique(GetAllIconNames(Some(a)), GetAllIconNames(Some(b)));
  }

  /** Every icon in one scheme, in icon order. */
  function Row(config: string, icons: seq<string>): seq<(string, string)>
  {
    seq(|icons|, k requires 0 <= k < |icons| => (icons[k], config))
  }

  /** Schemes in the outer loop, icons in the inner one. */
  function Schedule(configs: seq<string>, icons: seq<string>): seq<(string, string)>
  {
    if |configs| == 0 then []
    else Schedule(configs[..|configs| - 1], icons) + Row(configs[|configs| - 1], icons)
  }

  /** Position `a * |icons| + b` of the schedule is icon `b` in scheme `a`,
      so every pair is tried exactly once and schemes never interleave. */
  lemma {:induction false} ScheduleIndex(configs: seq<string>, icons: seq<string>, a: nat, b: nat)
    requires a < |configs| && b < |icons|
    ensures |Schedule(configs, icons)| == |configs| * |icons|
    ensures a * |icons| + b < |Schedule(configs, icons)|
    ensures Schedule(configs, icons)[a * |icons| + b] == (icons[b], configs[a])
    decreases |configs|
  {
    var n := |configs|;
    var init := configs[..n - 1];
    var m := |icons|;
    var front := Schedule(init, icons);
    assert Schedule(configs, icons) == front + Row(configs[n - 1], icons);
    if a < n - 1 {
      ScheduleIndex(init, icons, a, b);
      assert init[a] == configs[a];
    } else {
      if n > 1 {
        ScheduleIndex(init, icons, 0, b);
      }
      assert |front| == (n - 1) * m;
    }
    MulStep(n, m);
  }

  lemma MulStep(n: nat, m: nat)
    requires n > 0
    ensures n * m == (n - 1) * m + m
  {
  }

  function Outcome(env: Env, pair: (string, string)): Result<Saved, Fault>
  {
    GenerateIcon(env, pair.0, pair.1)
  }

  /** The failures of a run over `pairs`, in order. */
  function Failures(env: Env, pairs: seq<(string, string)>): seq<IconFailure>
  {
    if |pairs| == 0 then []
    else
      var last := pairs[|pairs| - 1];
      match Outcome(env, last)
      case Failure(f) => Failures(env, pairs[..|pairs| - 1]) + [IconFailure(last.0, last.1, f)]
      case Success(_) => Failures(env, pairs[..|pairs| - 1])
  }

  /** How many of `pairs` generate without raising. */
  function Successes(env: Env, pairs: seq<(string, string)>): nat
  {
    if |pairs| == 0 then 0
    else Successes(env, pairs[..|pairs| - 1]) + (if Outcome(env, pairs[|pairs| - 1]).Success? then 1 else 0)
  }

  /** Every pair either counts as generated or leaves one failure, and
      each recorded failure is a pair of the run whose generation raised
      exactly that fault. */
  lemma {:induction false} FailuresAccount(env: Env, pairs: seq<(string, string)>)
    ensures Successes(env, pairs) + |Failures(env, pairs)| == |pairs|
    ensures forall f :: f in Failures(env, pairs) ==>
      (f.icon, f.config) in pairs && GenerateIcon(env, f.icon, f.config) == Failure(f.fault)
    decreases |pairs|
  {
    if |pairs| > 0 {
      var init := pairs[..|pairs| - 1];
      FailuresAccount(env, init);
      assert forall p :: p in init ==> p in pairs;
    }
  }

  lemma StepOne(env: Env, pairs: seq<(string, string)>, p: (string, string))
    ensures (pairs + [p])[..|pairs|] == pairs
    ensures Failures(env, pairs + [p]) ==
      Failures(env, pairs) + (if Outcome(env, p).Failure? then [IconFailure(p.0, p.1, Outcome(env, p).error)] else [])
    ensures Successes(env, pairs + [p]) == Successes(env, pairs) + (if Outcome(env, p).Success? then 1 else 0)
  {
    assert (pairs + [p])[..|pairs|] == pairs;
  }

  /** The report after one more generation, with the given outcome. */
  function Record(report: Report, pair: (string, string), outcome: Result<Saved, Fault>): Report
  {
    match outcome
    case Success(_) => Report(report.attempted + [pair], report.generated + 1, report.failed)
    case Failure(f) => Report(report.attempted + [pair], report.generated, report.failed + [IconFailure(pair.0, pair.1, f)])
  }

  predicate Consistent(env: Env, report: Report)
  {
    report.failed == Failures(env, report.attempted) && report.generated == Successes(env, report.attempted)
  }

  lemma RecordKeepsConsistent(env: Env, report: Report, pair: (string, string))
    requires Consistent(env, report)
    ensures Record(report, pair, Outcome(env, pair)).attempted == report.attempted + [pair]
    ensures Consistent(env, Record(report, pair, Outcome(env, pair)))
  {
    StepOne(env, report.attempted, pair);
  }

  /** One pass of the inner loop body: generate, then count or record. */
  method GenerateOne(env: Env, report: Report, pair: (string, string)) returns (next: Report)
    requires Consistent(env, report)
    ensures next.attempted == report.attempted + [pair]
    ensures Consistent(env, next)
  {
    RecordKeepsConsistent(env, report, pair);
    next := Record(report, pair, Outcome(env, pair));
  }

  lemma RowExtend(config: string, names: seq<string>, i: nat)
    requires i < |names|
    ensures Row(config, names[..i + 1]) == Row(config, names[..i]) + [(names[i], config)]
  {
  }

  /** The inner loop of `generate_all_icons`: every icon in one scheme. */
  method RunScheme(env: Env, config: string, names: seq<string>, before: Report) returns (after: Report)
    requires Consistent(env, before)
    ensures after.attempted == before.attempted + Row(config, names)
    ensures Consistent(env, after)
  {
    after := before;
    var i := 0;
    while i < |names|
      invariant i <= |names|
      invariant after.attempted == before.attempted + Row(config, names[..i])
      invariant Consistent(env, after)
    {
      after := GenerateOne(env, after, (names[i], config));
      RowExtend(config, names, i);
      i := i + 1;
    }
    assert names[..i] == names;
  }

  /** `generate_all_icons`. */
  method GenerateAllIcons(env: Env, listing: Option<seq<Entry>>) returns (report: Report)
    ensures var names := GetAllIconNames(listing);
      report.attempted == (if |names| == 0 then [] else Schedule(ConfigNames, names))
    ensures report.generated + |report.failed| == |ConfigNames| * |GetAllIconNames(listing)|
    ensures report.failed == Failures(env, report.attempted)
    ensures report.generated == Successes(env, report.attempted)
  {
    var names := GetAllIconNames(listing);
    report := Report([], 0, []);
    if |names| == 0 {
      return;
    }
    report := RunSchemes(env, names);
    ReportComplete(env, names, report);
  }

  /** The outer loop of the batch: every colour scheme in table order, each
      over every icon name. */
  method RunSchemes(env: Env, names: seq<string>) returns (report: Report)
    ensures report.attempted == Schedule(ConfigNames[..|ConfigNames|], names)
    ensures Consistent(env, report)
  {
    report := Report([], 0, []);
    var c := 0;
    while c < |ConfigNames|
      invariant c <= |ConfigNames|
      invariant report.attempted == Schedule(ConfigNames[..c], names)
      invariant Consistent(env, report)
    {
      report := RunScheme(env, ConfigNames[c], names, report);
      ScheduleStep(ConfigNames, c, names);
      c := c + 1;
    }
  }

  lemma ScheduleStep(configs: seq<string>, c: nat, names: seq<string>)
    requires c < |configs|
    ensures Schedule(configs[..c + 1], names) == Schedule(configs[..c], names) + Row(configs[c], names)
  {
    assert configs[..c + 1][..c] == configs[..c];
  }

  /** After the last scheme, the run has tried every pair once. */
  lemma ReportComplete(env: Env, names: seq<string>, report: Report)
    requires report.attempted == Schedule(ConfigNames[..|ConfigNames|], names)
    requires Consistent(env, report)
    ensures report.attempted == Schedule(ConfigNames, names)
    ensures report.generated + |report.failed| == |ConfigNames| * |names|
  {
    assert ConfigNames[..|ConfigNames|] == ConfigNames;
    ScheduleLength(ConfigNames, names);
    FailuresAccount(env, report.attempted);
  }

  lemma {:induction false} ScheduleLength(configs: seq<string>, icons: seq<string>)
    ensures |Schedule(configs, icons)| == |configs| * |icons|
    decreases |configs|
  {
    if |configs| > 0 {
      ScheduleLength(configs[..|configs| - 1], icons);
      assert |configs| * |icons| == (|configs| - 1) * |icons| + |icons|;
    }
  }

  /** A run fails nowhere when every output directory can be made and
      every save succeeds: a missing SVG source still counts as generated. */
  lemma WritableOutputsNeverFail(env: Env, pairs: seq<(string, string)>)
    requires forall p :: p in pairs ==> p.1 in ConfigNames
    requires forall c :: c in ConfigNames ==> Background(env.parseColor, ConfigNamed(c).value).Success?
    requires forall d :: env.makeDirs(d)
    requires forall path, image :: env.save(path, image)
    ensures Failures(env, pairs) == []
    ensures Successes(env, pairs) == |pairs|
  {
    FailuresAccount(env, pairs);
    if |Failures(env, pairs)| > 0 {
      var f := Failures(env, pairs)[0];
      assert f in Failures(env, pairs);
      GenerateIconOutcome(env, f.icon, f.config);
    }
  }
}
