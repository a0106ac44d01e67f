/**
 The place-chip compiler (api/location_filter.py): chips become WHERE fragments in SQL's three-valued
 logic, and the fragments mean what the in-memory predicate means, on rows whose codes may be NULL.
 A fragment is modelled by its expression tree, not by its text.
 */
module LocationFilter {
  import opened Common

  // ---- chips and rows --------------------------------------------------------------------------

  datatype Level = Kraj | Okres | Obec | CastObce | Ulice

  /** Coarsest first. */
  const LEVEL_ORDER: seq<Level> := [Kraj, Okres, Obec, CastObce, Ulice]

  datatype Chip = Chip(level: Level, id: int, excluded: bool)

  datatype Column = RegionId | OkresId | ObecId | CastObceId | UliceId

  function LevelColumn(level: Level): Column {
    match level
    case Kraj => RegionId
    case Okres => OkresId
    case Obec => ObecId
    case CastObce => CastObceId
    case Ulice => UliceId
  }

  function LevelName(level: Level): string {
    match level
    case Kraj => "kraj"
    case Okres => "okres"
    case Obec => "obec"
    case CastObce => "cast_obce"
    case Ulice => "ulice"
  }

  /** A row's five code columns; None is NULL. */
  datatype Row = Row(
    region: Option<int>, okres: Option<int>, obec: Option<int>, castObce: Option<int>, ulice: Option<int>)

  function Code(row: Row, column: Column): Option<int> {
    match column
    case RegionId => row.region
    case OkresId => row.okres
    case ObecId => row.obec
    case CastObceId => row.castObce
    case UliceId => row.ulice
  }

  /** The row's unit at a level. */
  function CodeAt(row: Row, level: Level): Option<int> {
    match level
    case Kraj => row.region
    case Okres => row.okres
    case Obec => row.obec
    case CastObce => row.castObce
    case Ulice => row.ulice
  }

  /** The chip's unit is the row's unit at that level. */
  predicate Hits(chip: Chip, row: Row) {
    CodeAt(row, chip.level) == Some(chip.id)
  }

  predicate AnyHit(chips: seq<Chip>, excluded: bool, row: Row) {
    exists k :: 0 <= k < |chips| && chips[k].excluded == excluded && Hits(chips[k], row)
  }

  predicate AnySide(chips: seq<Chip>, excluded: bool) {
    exists k :: 0 <= k < |chips| && chips[k].excluded == excluded
  }

  /** The in-memory predicate: some included chip hits (or none is included), and no excluded one does. */
  predicate Keeps(chips: seq<Chip>, row: Row) {
    (AnySide(chips, false) ==> AnyHit(chips, false, row)) && !AnyHit(chips, true, row)
  }

  // ---- SQL's three-valued logic ----------------------------------------------------------------

  datatype Truth = True | False | Unknown

  type Params = map<string, seq<int>>

  /** `alias.column = ANY(%(key)s)`, OR, NOT, COALESCE(.., false). */
  datatype Expr =
    | EqAny(alias: string, column: Column, key: string)
    | Or(left: Expr, right: Expr)
    | Not(e: Expr)
    | CoalesceFalse(e: Expr)

  function Eval(e: Expr, params: Params, row: Row): Truth {
    match e
    case EqAny(_, column, key) =>
      if key !in params then Unknown
      else if params[key] == [] then False
      else if Code(row, column).None? then Unknown
      else if Code(row, column).value in params[key] then True
      else False
    case Or(l, r) =>
      var a, b := Eval(l, params, row), Eval(r, params, row);
      if a == True || b == True then True else if a == Unknown || b == Unknown then Unknown else False
    case Not(n) =>
      (match Eval(n, params, row) case True => False case False => True case Unknown => Unknown)
    case CoalesceFalse(c) =>
      var a := Eval(c, params, row);
      if a == Unknown then False else a
  }

  /** Every placeholder is supplied, and every column is read from `alias`. */
  ghost predicate Renders(e: Expr, params: Params, alias: string) {
    match e
    case EqAny(a, _, key) => a == alias && key in params
    case Or(l, r) => Renders(l, params, alias) && Renders(r, params, alias)
    case Not(n) => Renders(n, params, alias)
    case CoalesceFalse(c) => Renders(c, params, alias)
  }

  /** The WHERE clause: the fragments ANDed; a row is kept when each is true, not unknown. */
  predicate Kept(fragments: seq<Expr>, params: Params, row: Row) {
    forall k :: 0 <= k < |fragments| ==> Eval(fragments[k], params, row) == True
  }

  // ---- the compiler ----------------------------------------------------------------------------

  /** One side of district_code_plan: codes per level, first appearance first. */
  type Side = map<Level, seq<int>>

  function SideOf(chips: seq<Chip>, excluded: bool): Side {
    if chips == [] then map[] else
      var side, chip := SideOf(chips[..|chips| - 1], excluded), chips[|chips| - 1];
      if chip.excluded != excluded then side else
        var codes := if chip.level in side then side[chip.level] else [];
        side[chip.level := if chip.id in codes then codes else codes + [chip.id]]
  }

  const INCLUDE := "district_codes"
  const EXCLUDE := "district_codes_excl"

  function Key(prefix: string, level: Level): string {
    prefix + "_" + LevelName(level)
  }

  function Arm(alias: string, prefix: string, level: Level): Expr {
    EqAny(alias, LevelColumn(level), Key(prefix, level))
  }

  /** The arms of the first `n` levels. */
  function ArmsUpTo(side: Side, alias: string, prefix: string, n: nat): seq<Expr>
    requires n <= |LEVEL_ORDER|
  {
    if n == 0 then [] else
      var level := LEVEL_ORDER[n - 1];
      ArmsUpTo(side, alias, prefix, n - 1)
      + (if level in side && side[level] != [] then [Arm(alias, prefix, level)] else [])
  }

  function ParamsUpTo(side: Side, prefix: string, params: Params, n: nat): Params
    requires n <= |LEVEL_ORDER|
  {
    if n == 0 then params else
      var level, front := LEVEL_ORDER[n - 1], ParamsUpTo(side, prefix, params, n - 1);
      if level in side && side[level] != [] then front[Key(prefix, level) := side[level]] else front
  }

  /** `" OR ".join(arms)`; None when there is no arm. */
  function Join(arms: seq<Expr>): Option<Expr> {
    if arms == [] then None
    else if |arms| == 1 then Some(arms[0])
    else Some(Or(Join(arms[..|arms| - 1]).value, arms[|arms| - 1]))
  }

  function Armed(side: Side, alias: string, prefix: string): seq<Expr> {
    ArmsUpTo(side, alias, prefix, |LEVEL_ORDER|)
  }

  function Included(chips: seq<Chip>, alias: string): Option<Expr> {
    Join(Armed(SideOf(chips, false), alias, INCLUDE))
  }

  function Excluded(chips: seq<Chip>, alias: string): Option<Expr> {
    Join(Armed(SideOf(chips, true), alias, EXCLUDE))
  }

  function ParamsOf(chips: seq<Chip>): Params {
    ParamsUpTo(SideOf(chips, true), EXCLUDE,
               ParamsUpTo(SideOf(chips, false), INCLUDE, map[], |LEVEL_ORDER|), |LEVEL_ORDER|)
  }

  function Fragments(chips: seq<Chip>, alias: string): seq<Expr> {
    var inc, exc := Included(chips, alias), Excluded(chips, alias);
    (if inc.Some? then [inc.value] else []) + (if exc.Some? then [Not(CoalesceFalse(exc.value))] else [])
  }

  // ---- what the plan holds ---------------------------------------------------------------------

  ghost predicate Listed(chips: seq<Chip>, excluded: bool, level: Level, code: int) {
    exists k :: 0 <= k < |chips| && chips[k] == Chip(level, code, excluded)
  }

  predicate InSide(side: Side, level: Level, code: int) {
    level in side && code in side[level]
  }

  ghost predicate NoEmptyList(side: Side) {
    forall level :: level in side ==> side[level] != []
  }

  /** The plan lists exactly the chips' codes, at their level and on their side. */
  lemma {:induction false} SideListsTheChips(chips: seq<Chip>, excluded: bool, level: Level, code: int)
    ensures InSide(SideOf(chips, excluded), level, code) <==> Listed(chips, excluded, level, code)
    ensures NoEmptyList(SideOf(chips, excluded))
  {
    if chips != [] {
      var front, chip := chips[..|chips| - 1], chips[|chips| - 1];
      SideListsTheChips(front, excluded, level, code);
      assert Listed(chips, excluded, level, code) <==>
        Listed(front, excluded, level, code) || chip == Chip(level, code, excluded) by {
        assert forall k :: 0 <= k < |front| ==> chips[k] == front[k];
      }
    }
  }

  /** ... each once. */
  lemma {:induction false} SideHasNoRepeats(chips: seq<Chip>, excluded: bool, level: Level, i: nat, j: nat)
    requires level in SideOf(chips, excluded) && i < j < |SideOf(chips, excluded)[level]|
    ensures SideOf(chips, excluded)[level][i] != SideOf(chips, excluded)[level][j]
  {
    var front, chip := chips[..|chips| - 1], chips[|chips| - 1];
    var was := SideOf(front, excluded);
    if level in was && j < |was[level]| {
      SideHasNoRepeats(front, excluded, level, i, j);
    }
  }

  // ---- keys do not collide ---------------------------------------------------------------------

  lemma KeysDiffer(prefix: string, a: Level, b: Level)
    requires Key(prefix, a) == Key(prefix, b)
    ensures a == b
  {
    var k := |prefix + "_"|;
    assert Key(prefix, a)[k..] == LevelName(a) && Key(prefix, b)[k..] == LevelName(b);
    assert LevelName(a)[..2] == LevelName(b)[..2];
  }

  lemma SidesUseOtherKeys(a: Level, b: Level)
    ensures Key(INCLUDE, a) != Key(EXCLUDE, b)
  {
    var k := |INCLUDE + "_"|;
    assert Key(INCLUDE, a)[k] == LevelName(a)[0];
    assert Key(EXCLUDE, b)[k] == 'e';
  }

  lemma {:induction false} ParamsHoldTheSide(side: Side, prefix: string, params: Params, n: nat, i: nat)
    requires i < n <= |LEVEL_ORDER| && LEVEL_ORDER[i] in side && side[LEVEL_ORDER[i]] != []
    ensures Key(prefix, LEVEL_ORDER[i]) in ParamsUpTo(side, prefix, params, n)
    ensures ParamsUpTo(side, prefix, params, n)[Key(prefix, LEVEL_ORDER[i])] == side[LEVEL_ORDER[i]]
  {
    if i < n - 1 {
      ParamsHoldTheSide(side, prefix, params, n - 1, i);
      if Key(prefix, LEVEL_ORDER[i]) == Key(prefix, LEVEL_ORDER[n - 1]) {
        KeysDiffer(prefix, LEVEL_ORDER[i], LEVEL_ORDER[n - 1]);
      }
    }
  }

  lemma {:induction false} OtherKeysStay(side: Side, prefix: string, params: Params, n: nat, key: string)
    requires n <= |LEVEL_ORDER| && forall level :: key != Key(prefix, level)
    ensures key in ParamsUpTo(side, prefix, params, n) <==> key in params
    ensures key in params ==> ParamsUpTo(side, prefix, params, n)[key] == params[key]
  {
    if n > 0 {
      OtherKeysStay(side, prefix, params, n - 1, key);
    }
  }

  /** `params` supplies the side's codes under `prefix`. */
  ghost predicate Supplies(params: Params, side: Side, prefix: string) {
    forall level :: level in side ==> Key(prefix, level) in params && params[Key(prefix, level)] == side[level]
  }

  lemma EveryLevelIsListed(level: Level) returns (i: nat)
    ensures i < |LEVEL_ORDER| && LEVEL_ORDER[i] == level
  {
    i := match level case Kraj => 0 case Okres => 1 case Obec => 2 case CastObce => 3 case Ulice => 4;
  }

  /** The two sides write under different keys, so the second does not undo the first. */
  lemma ParamsSupplyBothSides(chips: seq<Chip>)
    ensures Supplies(ParamsOf(chips), SideOf(chips, false), INCLUDE)
    ensures Supplies(ParamsOf(chips), SideOf(chips, true), EXCLUDE)
  {
    var inc, exc, n := SideOf(chips, false), SideOf(chips, true), |LEVEL_ORDER|;
    var first := ParamsUpTo(inc, INCLUDE, map[], n);
    SideListsTheChips(chips, false, Kraj, 0);
    SideListsTheChips(chips, true, Kraj, 0);
    forall level | level in inc
      ensures Key(INCLUDE, level) in ParamsOf(chips) && ParamsOf(chips)[Key(INCLUDE, level)] == inc[level]
    {
      var i := EveryLevelIsListed(level);
      ParamsHoldTheSide(inc, INCLUDE, map[], n, i);
      forall other ensures Key(INCLUDE, level) != Key(EXCLUDE, other) {
        SidesUseOtherKeys(level, other);
      }
      OtherKeysStay(exc, EXCLUDE, first, n, Key(INCLUDE, level));
    }
    forall level | level in exc
      ensures Key(EXCLUDE, level) in ParamsOf(chips) && ParamsOf(chips)[Key(EXCLUDE, level)] == exc[level]
    {
      var i := EveryLevelIsListed(level);
      ParamsHoldTheSide(exc, EXCLUDE, first, n, i);
    }
  }

  // ---- what a side's disjunction evaluates to --------------------------------------------------

  lemma {:induction false} ArmsAreTheLevels(side: Side, alias: string, prefix: string, n: nat, e: Expr)
    requires n <= |LEVEL_ORDER| && NoEmptyList(side)
    ensures e in ArmsUpTo(side, alias, prefix, n) <==>
      exists i :: 0 <= i < n && LEVEL_ORDER[i] in side && e == Arm(alias, prefix, LEVEL_ORDER[i])
  {
    if n > 0 {
      ArmsAreTheLevels(side, alias, prefix, n - 1, e);
    }
  }

  lemma {:induction false} JoinIsOr(arms: seq<Expr>, params: Params, row: Row)
    requires arms != []
    ensures Eval(Join(arms).value, params, row) == True <==> exists e :: e in arms && Eval(e, params, row) == True
    ensures Eval(Join(arms).value, params, row) == False <==> forall e :: e in arms ==> Eval(e, params, row) == False
  {
    var front, last := arms[..|arms| - 1], arms[|arms| - 1];
    assert arms == front + [last];
    assert forall e :: e in arms <==> e in front || e == last;
    assert last in arms;
    if front != [] {
      JoinIsOr(front, params, row);
    }
  }

  predicate SideHits(side: Side, row: Row) {
    exists level :: level in side && LevelHits(side, level, row)
  }

  /** Every level of the side has a code in the row. */
  predicate SideLocated(side: Side, row: Row) {
    forall level :: level in side ==> CodeAt(row, level).Some?
  }

  lemma ArmsOfSide(side: Side, alias: string, prefix: string)
    requires NoEmptyList(side)
    ensures forall e ::
      e in Armed(side, alias, prefix) <==> exists level :: level in side && e == Arm(alias, prefix, level)
    ensures Armed(side, alias, prefix) == [] <==> side == map[]
  {
    var arms := Armed(side, alias, prefix);
    forall e ensures e in arms <==> exists level :: level in side && e == Arm(alias, prefix, level) {
      ArmsAreTheLevels(side, alias, prefix, |LEVEL_ORDER|, e);
      if level :| level in side && e == Arm(alias, prefix, level) {
        var i := EveryLevelIsListed(level);
      }
    }
    if arms != [] {
      assert arms[0] in arms;
      var level :| level in side && arms[0] == Arm(alias, prefix, level);
    }
    if side != map[] {
      var level :| level in side;
      assert Arm(alias, prefix, level) in arms;
    }
  }

  predicate LevelHits(side: Side, level: Level, row: Row)
    requires level in side
  {
    CodeAt(row, level).Some? && CodeAt(row, level).value in side[level]
  }

  lemma ArmEvaluates(side: Side, alias: string, prefix: string, level: Level, params: Params, row: Row)
    requires NoEmptyList(side) && Supplies(params, side, prefix) && level in side
    ensures Eval(Arm(alias, prefix, level), params, row) ==
              if LevelHits(side, level, row) then True else if CodeAt(row, level).Some? then False else Unknown
  {}

  /** A side's disjunction is true on a hit, unknown on a missing code without a hit, false otherwise. */
  lemma SideEvaluates(side: Side, alias: string, prefix: string, params: Params, row: Row)
    requires NoEmptyList(side) && Supplies(params, side, prefix)
    ensures Join(Armed(side, alias, prefix)).Some? <==> side != map[]
    ensures side != map[] ==>
              var t := Eval(Join(Armed(side, alias, prefix)).value, params, row);
              (t == True <==> SideHits(side, row)) && (t == False <==> SideLocated(side, row) && !SideHits(side, row))
  {
    var arms := Armed(side, alias, prefix);
    ArmsOfSide(side, alias, prefix);
    if side != map[] {
      JoinIsOr(arms, params, row);
      forall level | level in side
        ensures Arm(alias, prefix, level) in arms
        ensures Eval(Arm(alias, prefix, level), params, row) ==
                  if LevelHits(side, level, row) then True else if CodeAt(row, level).Some? then False else Unknown
      {
        ArmEvaluates(side, alias, prefix, level, params, row);
      }
    }
  }

  lemma SideHitsIffAnyHit(chips: seq<Chip>, excluded: bool, row: Row)
    ensures SideHits(SideOf(chips, excluded), row) <==> AnyHit(chips, excluded, row)
    ensures SideOf(chips, excluded) != map[] <==> AnySide(chips, excluded)
    ensures NoEmptyList(SideOf(chips, excluded))
  {
    var side := SideOf(chips, excluded);
    SideListsTheChips(chips, excluded, Kraj, 0);
    if level :| level in side && LevelHits(side, level, row) {
      SideListsTheChips(chips, excluded, level, CodeAt(row, level).value);
      var k :| 0 <= k < |chips| && chips[k] == Chip(level, CodeAt(row, level).value, excluded);
      assert Hits(chips[k], row);
    }
    if k :| 0 <= k < |chips| && chips[k].excluded == excluded && Hits(chips[k], row) {
      SideListsTheChips(chips, excluded, chips[k].level, chips[k].id);
      assert LevelHits(side, chips[k].level, row);
    }
    if side != map[] {
      var level :| level in side;
      SideListsTheChips(chips, excluded, level, side[level][0]);
    }
    if k :| 0 <= k < |chips| && chips[k].excluded == excluded {
      SideListsTheChips(chips, excluded, chips[k].level, chips[k].id);
    }
  }

  // ---- the compiled predicate ------------------------------------------------------------------

  /** A chip hits on its own level's column of the row, and on no other. */
  lemma HitsReadItsColumn(id: int, excluded: bool, row: Row)
    ensures Hits(Chip(Kraj, id, excluded), row) <==> row.region == Some(id)
    ensures Hits(Chip(Okres, id, excluded), row) <==> row.okres == Some(id)
    ensures Hits(Chip(Obec, id, excluded), row) <==> row.obec == Some(id)
    ensures Hits(Chip(CastObce, id, excluded), row) <==> row.castObce == Some(id)
    ensures Hits(Chip(Ulice, id, excluded), row) <==> row.ulice == Some(id)
  {}

  /** `column` is compared with the codes supplied under `key`. */
  ghost predicate Compares(e: Expr, column: Column, key: string) {
    match e
    case EqAny(_, c, k) => c == column && k == key
    case Or(l, r) => Compares(l, column, key) || Compares(r, column, key)
    case Not(n) => Compares(n, column, key)
    case CoalesceFalse(c) => Compares(c, column, key)
  }

  /** A level's column, and the placeholder of its codes on a side. */
  ghost predicate Names(prefix: string, level: Level, column: Column, key: string) {
    match level
    case Kraj => column == RegionId && key == prefix + "_" + "kraj"
    case Okres => column == OkresId && key == prefix + "_" + "okres"
    case Obec => column == ObecId && key == prefix + "_" + "obec"
    case CastObce => column == CastObceId && key == prefix + "_" + "cast_obce"
    case Ulice => column == UliceId && key == prefix + "_" + "ulice"
  }

  lemma {:induction false} JoinCompares(arms: seq<Expr>, column: Column, key: string)
    requires arms != []
    ensures Compares(Join(arms).value, column, key) <==> exists e :: e in arms && Compares(e, column, key)
  {
    var front, last := arms[..|arms| - 1], arms[|arms| - 1];
    assert arms == front + [last];
    assert forall e :: e in arms <==> e in front || e == last;
    assert last in arms;
    if front != [] {
      JoinCompares(front, column, key);
    }
  }

  lemma ArmCompares(alias: string, prefix: string, level: Level, column: Column, key: string)
    ensures Compares(Arm(alias, prefix, level), column, key) <==> Names(prefix, level, column, key)
  {
    assert Compares(Arm(alias, prefix, level), column, key) <==>
      LevelColumn(level) == column && Key(prefix, level) == key;
  }

  ghost predicate SideNames(side: Side, prefix: string, column: Column, key: string) {
    exists level :: level in side && Names(prefix, level, column, key)
  }

  lemma {:induction false} SideCompares(side: Side, alias: string, prefix: string, column: Column, key: string)
    requires NoEmptyList(side) && side != map[]
    ensures Join(Armed(side, alias, prefix)).Some?
    ensures Compares(Join(Armed(side, alias, prefix)).value, column, key) <==> SideNames(side, prefix, column, key)
  {
    var arms := Armed(side, alias, prefix);
    ArmsOfSide(side, alias, prefix);
    JoinCompares(arms, column, key);
    if e :| e in arms && Compares(e, column, key) {
      var level :| level in side && e == Arm(alias, prefix, level);
      ArmCompares(alias, prefix, level, column, key);
    }
    if SideNames(side, prefix, column, key) {
      var level :| level in side && Names(prefix, level, column, key);
      ArmCompares(alias, prefix, level, column, key);
      assert Arm(alias, prefix, level) in arms;
    }
  }

  /** Some chip of this side asks for the column, under this placeholder. */
  ghost predicate AskedBy(chips: seq<Chip>, excluded: bool, prefix: string, column: Column, key: string) {
    exists k :: 0 <= k < |chips| && chips[k].excluded == excluded && Names(prefix, chips[k].level, column, key)
  }

  lemma {:induction false} SideNamesIff(chips: seq<Chip>, excluded: bool, prefix: string, column: Column, key: string)
    ensures SideNames(SideOf(chips, excluded), prefix, column, key) <==>
              AskedBy(chips, excluded, prefix, column, key)
  {
    var side := SideOf(chips, excluded);
    SideListsTheChips(chips, excluded, Kraj, 0);
    if level :| level in side && Names(prefix, level, column, key) {
      SideListsTheChips(chips, excluded, level, side[level][0]);
    }
    if k :| 0 <= k < |chips| && chips[k].excluded == excluded && Names(prefix, chips[k].level, column, key) {
      SideListsTheChips(chips, excluded, chips[k].level, chips[k].id);
    }
  }

  /** The fragments compare exactly the columns the chips' levels name, each with its own side's placeholder. */
  lemma {:induction false} FragmentsCompare(chips: seq<Chip>, alias: string, column: Column, key: string)
    ensures (exists f :: f in Fragments(chips, alias) && Compares(f, column, key)) <==>
              AskedBy(chips, false, "district_codes", column, key)
              || AskedBy(chips, true, "district_codes_excl", column, key)
  {
    var inc, exc := SideOf(chips, false), SideOf(chips, true);
    var fs := Fragments(chips, alias);
    SideListsTheChips(chips, false, Kraj, 0);
    SideListsTheChips(chips, true, Kraj, 0);
    ArmsOfSide(inc, alias, INCLUDE);
    ArmsOfSide(exc, alias, EXCLUDE);
    SideNamesIff(chips, false, INCLUDE, column, key);
    SideNamesIff(chips, true, EXCLUDE, column, key);
    if inc != map[] {
      SideCompares(inc, alias, INCLUDE, column, key);
      assert fs[0] == Included(chips, alias).value && fs[0] in fs;
    }
    if exc != map[] {
      SideCompares(exc, alias, EXCLUDE, column, key);
      var e := Excluded(chips, alias).value;
      assert fs[|fs| - 1] == Not(CoalesceFalse(e)) && fs[|fs| - 1] in fs;
      assert Compares(Not(CoalesceFalse(e)), column, key) <==> Compares(CoalesceFalse(e), column, key);
    }
    assert forall f :: f in fs ==>
      (inc != map[] && f == Included(chips, alias).value)
      || (exc != map[] && f == Not(CoalesceFalse(Excluded(chips, alias).value)));
  }

  lemma KeptPerSide(chips: seq<Chip>, alias: string, params: Params, row: Row)
    ensures var inc, exc := Included(chips, alias), Excluded(chips, alias);
            Kept(Fragments(chips, alias), params, row) <==>
              (inc.Some? ==> Eval(inc.value, params, row) == True)
              && (exc.Some? ==> Eval(exc.value, params, row) != True)
  {
    var inc, exc, fs := Included(chips, alias), Excluded(chips, alias), Fragments(chips, alias);
    assert inc.Some? ==> fs[0] == inc.value;
    assert exc.Some? ==> fs[|fs| - 1] == Not(CoalesceFalse(exc.value));
    assert exc.Some? ==> (Eval(fs[|fs| - 1], params, row) == True <==> Eval(exc.value, params, row) != True);
  }

  /** The fragments keep exactly the rows the in-memory predicate keeps. */
  lemma CompiledMeansKeeps(chips: seq<Chip>, alias: string, row: Row)
    ensures Kept(Fragments(chips, alias), ParamsOf(chips), row) <==> Keeps(chips, row)
  {
    var params := ParamsOf(chips);
    SideHitsIffAnyHit(chips, false, row);
    SideHitsIffAnyHit(chips, true, row);
    ParamsSupplyBothSides(chips);
    SideEvaluates(SideOf(chips, false), alias, INCLUDE, params, row);
    SideEvaluates(SideOf(chips, true), alias, EXCLUDE, params, row);
    KeptPerSide(chips, alias, params, row);
  }

  lemma {:induction false} JoinRenders(arms: seq<Expr>, params: Params, alias: string)
    requires arms != [] && forall e :: e in arms ==> Renders(e, params, alias)
    ensures Renders(Join(arms).value, params, alias)
  {
    if |arms| > 1 {
      JoinRenders(arms[..|arms| - 1], params, alias);
    }
    assert arms[|arms| - 1] in arms;
  }

  lemma SideRenders(side: Side, alias: string, prefix: string, params: Params)
    requires NoEmptyList(side) && Supplies(params, side, prefix) && side != map[]
    ensures Join(Armed(side, alias, prefix)).Some? && Renders(Join(Armed(side, alias, prefix)).value, params, alias)
  {
    ArmsOfSide(side, alias, prefix);
    JoinRenders(Armed(side, alias, prefix), params, alias);
  }

  /** Every placeholder of the fragments is in the params, whichever side wrote it, and every column is the alias's. */
  lemma FragmentsRender(chips: seq<Chip>, alias: string)
    ensures forall f :: f in Fragments(chips, alias) ==> Renders(f, ParamsOf(chips), alias)
  {
    var inc, exc := SideOf(chips, false), SideOf(chips, true);
    SideListsTheChips(chips, false, Kraj, 0);
    SideListsTheChips(chips, true, Kraj, 0);
    ParamsSupplyBothSides(chips);
    ArmsOfSide(inc, alias, INCLUDE);
    ArmsOfSide(exc, alias, EXCLUDE);
    if inc != map[] { SideRenders(inc, alias, INCLUDE, ParamsOf(chips)); }
    if exc != map[] { SideRenders(exc, alias, EXCLUDE, ParamsOf(chips)); }
  }

  /** Chip order and repeats do not change which rows are kept. */
  lemma OrderAndRepeatsDoNotMatter(xs: seq<Chip>, ys: seq<Chip>, alias: string, row: Row)
    requires forall chip :: chip in xs <==> chip in ys
    ensures Kept(Fragments(xs, alias), ParamsOf(xs), row) <==> Kept(Fragments(ys, alias), ParamsOf(ys), row)
  {
    CompiledMeansKeeps(xs, alias, row);
    CompiledMeansKeeps(ys, alias, row);
    SameHits(xs, ys, row);
    SameHits(ys, xs, row);
  }

  lemma SameHits(xs: seq<Chip>, ys: seq<Chip>, row: Row)
    requires forall chip :: chip in xs ==> chip in ys
    ensures forall side :: AnyHit(xs, side, row) ==> AnyHit(ys, side, row)
    ensures forall side :: AnySide(xs, side) ==> AnySide(ys, side)
  {
    forall k | 0 <= k < |xs| ensures exists j :: 0 <= j < |ys| && ys[j] == xs[k] {
      assert xs[k] in ys;
    }
  }

  /** Without COALESCE an exclusion would also drop every row with no code at an excluded level. */
  lemma BareNotNeedsEveryCode(chips: seq<Chip>, alias: string, row: Row)
    requires AnySide(chips, true)
    ensures Excluded(chips, alias).Some?
    ensures Eval(Not(Excluded(chips, alias).value), ParamsOf(chips), row) == True <==>
              && !AnyHit(chips, true, row)
              && forall k :: 0 <= k < |chips| && chips[k].excluded ==> CodeAt(row, chips[k].level).Some?
  {
    var exc := SideOf(chips, true);
    SideHitsIffAnyHit(chips, true, row);
    ParamsSupplyBothSides(chips);
    SideEvaluates(exc, alias, EXCLUDE, ParamsOf(chips), row);
    forall k | 0 <= k < |chips| && chips[k].excluded ensures chips[k].level in exc {
      SideListsTheChips(chips, true, chips[k].level, chips[k].id);
    }
    forall level | level in exc ensures exists k :: 0 <= k < |chips| && chips[k].excluded && chips[k].level == level {
      SideListsTheChips(chips, true, level, exc[level][0]);
    }
  }

  // ---- the code that builds it -----------------------------------------------------------------

  datatype Plan = Plan(included: Side, excluded: Side)

  /** district_code_plan. */
  method DistrictCodePlan(chips: seq<Chip>) returns (plan: Plan)
    ensures plan == Plan(SideOf(chips, false), SideOf(chips, true))
    ensures forall level, code :: InSide(plan.included, level, code) <==> Listed(chips, false, level, code)
    ensures forall level, code :: InSide(plan.excluded, level, code) <==> Listed(chips, true, level, code)
  {
    plan := Plan(map[], map[]);
    for i := 0 to |chips|
      invariant plan == Plan(SideOf(chips[..i], false), SideOf(chips[..i], true))
    {
      assert chips[..i + 1][..i] == chips[..i];
      var chip := chips[i];
      var side := if chip.excluded then plan.excluded else plan.included;
      var codes := if chip.level in side then side[chip.level] else [];
      if chip.id !in codes {
        codes := codes + [chip.id];
      }
      if chip.excluded {
        plan := plan.(excluded := side[chip.level := codes]);
      } else {
        plan := plan.(included := side[chip.level := codes]);
      }
    }
    assert chips[..|chips|] == chips;
    forall level, code ensures InSide(plan.included, level, code) <==> Listed(chips, false, level, code) {
      SideListsTheChips(chips, false, level, code);
    }
    forall level, code ensures InSide(plan.excluded, level, code) <==> Listed(chips, true, level, code) {
      SideListsTheChips(chips, true, level, code);
    }
  }

  /** _arms: the arms in level order, `params` filled on the way. */
  method Arms(side: Side, alias: string, prefix: string, params: Params) returns (joined: Option<Expr>, filled: Params)
    ensures joined == Join(Armed(side, alias, prefix))
    ensures filled == ParamsUpTo(side, prefix, params, |LEVEL_ORDER|)
  {
    var arms: seq<Expr> := [];
    filled := params;
    for i := 0 to |LEVEL_ORDER|
      invariant arms == ArmsUpTo(side, alias, prefix, i)
      invariant filled == ParamsUpTo(side, prefix, params, i)
    {
      var level := LEVEL_ORDER[i];
      if level in side && side[level] != [] {
        var key := prefix + "_" + LevelName(level);
        filled := filled[key := side[level]];
        arms := arms + [EqAny(alias, LevelColumn(level), key)];
      }
    }
    joined := Join(arms);
  }

  datatype Compiled = Where(fragments: seq<Expr>, params: Params) | ValueError

  /** district_where; `chips` may be absent. */
  method DistrictWhere(chips: Option<seq<Chip>>, alias: string) returns (r: Compiled)
    ensures r.ValueError? <==> chips.Some? && chips.value != [] && alias == ""
    ensures r.Where? ==> forall row ::
              Kept(r.fragments, r.params, row) <==> Keeps(if chips.Some? then chips.value else [], row)
    ensures r.Where? ==> forall f :: f in r.fragments ==> Renders(f, r.params, alias)
    ensures r.Where? && chips.Some? ==> forall column, key ::
              (exists f :: f in r.fragments && Compares(f, column, key)) <==>
                AskedBy(chips.value, false, "district_codes", column, key)
                || AskedBy(chips.value, true, "district_codes_excl", column, key)
    ensures r.Where? && chips.Some? && chips.value != [] ==>
              r == Where(Fragments(chips.value, alias), ParamsOf(chips.value))
    ensures r.Where? && (chips.None? || chips.value == []) ==> r == Where([], map[])
  {
    if chips.None? || chips.value == [] {
      return Where([], map[]);
    }
    if alias == "" {
      return ValueError;
    }
    var plan := DistrictCodePlan(chips.value);
    var where: seq<Expr> := [];
    var inc, params := Arms(plan.included, alias, INCLUDE, map[]);
    if inc.Some? {
      where := where + [inc.value];
    }
    var exc;
    exc, params := Arms(plan.excluded, alias, EXCLUDE, params);
    if exc.Some? {
      where := where + [Not(CoalesceFalse(exc.value))];
    }
    assert where == Fragments(chips.value, alias) && params == ParamsOf(chips.value);
    forall row ensures Kept(where, params, row) <==> Keeps(chips.value, row) {
      CompiledMeansKeeps(chips.value, alias, row);
    }
    FragmentsRender(chips.value, alias);
    forall column, key
      ensures (exists f :: f in where && Compares(f, column, key)) <==>
                AskedBy(chips.value, false, "district_codes", column, key)
                || AskedBy(chips.value, true, "district_codes_excl", column, key)
    {
      FragmentsCompare(chips.value, alias, column, key);
    }
    return Where(where, params);
  }
}
