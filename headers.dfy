/**
 * Header resolution of `uploadAndSummarize`: the normalised header index, the alias
 * table, `req` (exact, then substring match, else throw) and `any` (substring match or null).
 */
module Headers {
  import opened Wrappers
  import opened Text
  import opened Model

  /** Normalised header text to column position. */
  type Index = map<string, nat>

  /** `CSVFormat.isBlank`: a header name with nothing left after `trim`. */
  predicate IsBlank(name: string) {
    Trim(name) == []
  }

  /** Every header name has some text; the default format allows no missing column name. */
  predicate NoBlankHeader(header: seq<string>) {
    forall i :: 0 <= i < |header| ==> !IsBlank(header[i])
  }

  /** Header names that differ also normalise differently (a name repeated verbatim is allowed). */
  predicate DistinctHeaders(header: seq<string>) {
    forall i, j :: 0 <= i < j < |header| && header[i] != header[j] ==> Norm(header[i]) != Norm(header[j])
  }

  /**
   * The parser's header map from raw name to column: the default format allows a name twice,
   * and a later `put` of a name replaces its column, so each name keeps its last column.
   */
  function Positions(header: seq<string>): (r: map<string, nat>)
    ensures forall s :: s in r <==> s in header
    ensures forall s :: s in r ==> r[s] < |header| && header[r[s]] == s && forall j :: r[s] < j < |header| ==> header[j] != s
  {
    if header == [] then map[]
    else
      var n := |header| - 1;
      var init := header[..n];
      assert header == init + [header[n]];
      Positions(init)[header[n] := n]
  }

  /** The names in the map's iteration order: a linked map keeps each name where it was first put. */
  function Names(header: seq<string>): (r: seq<string>)
    ensures forall s :: s in r <==> s in header
    ensures forall i, j :: 0 <= i < j < |r| ==> r[i] != r[j]
  {
    if header == [] then []
    else
      var n := |header| - 1;
      var init := header[..n];
      assert header == init + [header[n]];
      var prior := Names(init);
      if header[n] in init then prior else prior + [header[n]]
  }

  /** One entry of `getHeaderMap().entrySet()`, or of the stream mapped from it. */
  datatype Entry = Entry(name: string, column: nat)

  /** `getHeaderMap().entrySet()`: each distinct name once, with the column of its last occurrence. */
  function HeaderMap(header: seq<string>): (r: seq<Entry>)
    ensures forall a, b :: 0 <= a < b < |r| ==> r[a].name != r[b].name
    ensures forall i :: 0 <= i < |header| ==> exists a :: 0 <= a < |r| && r[a].name == header[i]
    ensures forall a :: 0 <= a < |r| ==>
              && r[a].column < |header| && header[r[a].column] == r[a].name
              && forall j :: r[a].column < j < |header| ==> header[j] != r[a].name
  {
    var names, pos := Names(header), Positions(header);
    var r := seq(|names|, a requires 0 <= a < |names| => Entry(names[a], pos[names[a]]));
    assert forall i :: 0 <= i < |header| ==> exists a :: 0 <= a < |r| && r[a].name == header[i] by {
      forall i | 0 <= i < |header| ensures exists a :: 0 <= a < |r| && r[a].name == header[i] {
        assert header[i] in names;
        var a :| 0 <= a < |names| && names[a] == header[i];
        assert r[a].name == header[i];
      }
    }
    r
  }

  /** The stream's key mapping, `e -> key(e.getKey())`: each entry under its key, columns kept. */
  function Keyed(entries: seq<Entry>, key: string -> string): (r: seq<Entry>)
    ensures |r| == |entries|
    ensures forall a :: 0 <= a < |r| ==> r[a].name == key(entries[a].name) && r[a].column == entries[a].column
  {
    seq(|entries|, a requires 0 <= a < |entries| => Entry(key(entries[a].name), entries[a].column))
  }

  /** `Collectors.toMap` over keyed entries, in order: it fails on the first key that repeats an earlier one. */
  function ToMap(entries: seq<Entry>): (r: Result<Index, UploadError>)
    ensures r.Ok? ==> forall a :: 0 <= a < |entries| ==> entries[a].name in r.value && r.value[entries[a].name] == entries[a].column
    ensures r.Ok? ==> forall k :: k in r.value ==> exists a :: 0 <= a < |entries| && entries[a].name == k
  {
    if entries == [] then Ok(map[])
    else
      var n := |entries| - 1;
      var init := entries[..n];
      assert forall a :: 0 <= a < n ==> init[a] == entries[a];
      var prior := ToMap(init);
      if prior.Err? then Err(prior.error)
      else
        var k := entries[n].name;
        if k in prior.value then Err(DuplicateHeader(k))
        else Ok(prior.value[k := entries[n].column])
  }

  /** `toMap` succeeds when no two entries share a key. */
  lemma {:induction false} ToMapAccepts(entries: seq<Entry>)
    requires forall a, b :: 0 <= a < b < |entries| ==> entries[a].name != entries[b].name
    ensures ToMap(entries).Ok?
  {
    if entries != [] {
      var n := |entries| - 1;
      var init := entries[..n];
      assert forall a :: 0 <= a < n ==> init[a] == entries[a];
      ToMapAccepts(init);
      var prior := ToMap(init);
      assert forall a :: 0 <= a < n ==> init[a].name != entries[n].name;
      assert entries[n].name !in prior.value;
    }
  }

  /** When `toMap` fails, two entries share a key, and the exception names it. */
  lemma {:induction false} ToMapRejects(entries: seq<Entry>)
    ensures ToMap(entries).Err? ==> exists a, b :: 0 <= a < b < |entries| && entries[a].name == entries[b].name
                                                  && ToMap(entries).error == DuplicateHeader(entries[b].name)
  {
    if entries != [] {
      var n := |entries| - 1;
      var init := entries[..n];
      assert forall a :: 0 <= a < n ==> init[a] == entries[a];
      ToMapRejects(init);
      var prior := ToMap(init);
      if prior.Err? {
        var a, b :| 0 <= a < b < n && init[a].name == init[b].name && prior.error == DuplicateHeader(init[b].name);
        assert entries[a].name == entries[b].name;
      } else if entries[n].name in prior.value {
        var a :| 0 <= a < n && init[a].name == entries[n].name;
        assert entries[a].name == entries[n].name;
      }
    }
  }

  /**
   * Collecting the header map under any key: every header's key maps to the last column
   * carrying that header's name, and every key is some header's.
   */
  lemma KeyedIndex(header: seq<string>, key: string -> string)
    ensures var r := ToMap(Keyed(HeaderMap(header), key));
            r.Ok? ==> forall i :: 0 <= i < |header| ==>
              && key(header[i]) in r.value
              && var c := r.value[key(header[i])];
                 c < |header| && header[c] == header[i] && forall j :: c < j < |header| ==> header[j] != header[i]
    ensures var r := ToMap(Keyed(HeaderMap(header), key));
            r.Ok? ==> forall k :: k in r.value ==> exists i :: 0 <= i < |header| && key(header[i]) == k
  {
    var entries := HeaderMap(header);
    var keyed := Keyed(entries, key);
    var r := ToMap(keyed);
    if r.Ok? {
      forall i | 0 <= i < |header|
        ensures key(header[i]) in r.value
        ensures var c := r.value[key(header[i])];
                c < |header| && header[c] == header[i] && forall j :: c < j < |header| ==> header[j] != header[i]
      {
        var a :| 0 <= a < |entries| && entries[a].name == header[i];
        assert keyed[a].name == key(header[i]);
      }
      forall k | k in r.value ensures exists i :: 0 <= i < |header| && key(header[i]) == k {
        var a :| 0 <= a < |keyed| && keyed[a].name == k;
        assert key(header[entries[a].column]) == k;
      }
    }
  }

  /** Collecting the header map under any key succeeds when different header names have different keys. */
  lemma KeyedAccepts(header: seq<string>, key: string -> string)
    requires forall i, j :: 0 <= i < j < |header| && header[i] != header[j] ==> key(header[i]) != key(header[j])
    ensures ToMap(Keyed(HeaderMap(header), key)).Ok?
  {
    var entries := HeaderMap(header);
    var keyed := Keyed(entries, key);
    forall a, b | 0 <= a < b < |keyed| ensures keyed[a].name != keyed[b].name {
      var p, q := entries[a].column, entries[b].column;
      assert header[p] == entries[a].name && header[q] == entries[b].name;
      if p < q {
        assert header[p] != header[q];
      } else {
        assert header[q] != header[p];
      }
    }
    ToMapAccepts(keyed);
  }

  /** Collecting the header map under any key fails when two different header names share a key. */
  lemma KeyedClash(header: seq<string>, key: string -> string, i: nat, j: nat)
    requires i < j < |header| && header[i] != header[j] && key(header[i]) == key(header[j])
    ensures ToMap(Keyed(HeaderMap(header), key)).Err?
  {
    var entries := HeaderMap(header);
    var keyed := Keyed(entries, key);
    var a :| 0 <= a < |entries| && entries[a].name == header[i];
    var b :| 0 <= b < |entries| && entries[b].name == header[j];
    assert keyed[a].name == keyed[b].name && entries[a].column != entries[b].column;
  }

  /** When collecting the header map under a key fails, two different header names share the key it names. */
  lemma KeyedRejects(header: seq<string>, key: string -> string)
    ensures ToMap(Keyed(HeaderMap(header), key)).Err? ==>
              exists i, j :: 0 <= i < j < |header| && header[i] != header[j] && key(header[i]) == key(header[j])
                             && ToMap(Keyed(HeaderMap(header), key)).error == DuplicateHeader(key(header[j]))
  {
    var entries := HeaderMap(header);
    var keyed := Keyed(entries, key);
    ToMapRejects(keyed);
    if ToMap(keyed).Err? {
      var a, b :| 0 <= a < b < |keyed| && keyed[a].name == keyed[b].name
                  && ToMap(keyed).error == DuplicateHeader(keyed[b].name);
      var p, q := entries[a].column, entries[b].column;
      assert header[p] == entries[a].name && header[q] == entries[b].name;
      if p < q {
        assert header[p] != header[q] && key(header[p]) == key(header[q]);
      } else {
        assert header[q] != header[p] && key(header[q]) == key(header[p]);
      }
    }
  }

  /**
   * The normalised header index of `uploadAndSummarize`: `format.parse` rejects a blank header
   * name, then the header map's entries are collected under their normalised names.
   */
  function IndexOf(header: seq<string>): (r: Result<Index, UploadError>)
    ensures !NoBlankHeader(header) ==> r == Err(BlankHeader(header))
    ensures r.Ok? ==> forall i :: 0 <= i < |header| ==>
              && Norm(header[i]) in r.value
              && var c := r.value[Norm(header[i])];
                 c < |header| && header[c] == header[i] && forall j :: c < j < |header| ==> header[j] != header[i]
    ensures r.Ok? ==> forall k :: k in r.value ==> exists i :: 0 <= i < |header| && Norm(header[i]) == k
  {
    if !NoBlankHeader(header) then Err(BlankHeader(header))
    else
      KeyedIndex(header, Norm);
      ToMap(Keyed(HeaderMap(header), Norm))
  }

  /**
   * The index is built exactly when no header name is blank and no two different names normalise
   * alike; a clash names the normalised text of both.
   */
  lemma IndexOfDuplicates(header: seq<string>)
    ensures IndexOf(header).Ok? <==> NoBlankHeader(header) && DistinctHeaders(header)
    ensures IndexOf(header).Err? && NoBlankHeader(header) ==>
              exists i, j :: 0 <= i < j < |header| && header[i] != header[j] && Norm(header[i]) == Norm(header[j])
                             && IndexOf(header).error == DuplicateHeader(Norm(header[j]))
  {
    if NoBlankHeader(header) {
      if DistinctHeaders(header) {
        KeyedAccepts(header, Norm);
      } else {
        var i, j :| 0 <= i < j < |header| && header[i] != header[j] && Norm(header[i]) == Norm(header[j]);
        KeyedClash(header, Norm, i, j);
      }
      KeyedRejects(header, Norm);
    }
  }

  /** The accepted header texts of each field, as the service passes them to `req` (or `any`). */
  function Aliases(f: Field): seq<string> {
    match f
    case Date => ["date"]
    case ActiveEnergy => ["active energy"]
    case ExerciseMin => ["apple exercise time"]
    case StandHour => ["apple stand hour"]
    case StandMin => ["apple stand time"]
    case Spo2 => ["blood oxygen saturation (% )", "blood oxygen saturation (%)"]
    case AudioDb => ["environmental audio exposure (dbaspl)"]
    case Flights => ["flights climbed (count)"]
    case HrMin => ["heart rate [min] (count/min)"]
    case HrMax => ["heart rate [max] (count/min)"]
    case HrAvg => ["heart rate [avg] (count/min)"]
    case HrvMs => ["heart rate variability (ms)"]
    case PhysEff => ["physical effort (kcal/hr", "physical effort (kcal/hr"]
    case RestEnergy => ["resting energy (kcal)"]
    case RestingHr => ["resting heart rate (count/min)"]
    case StairDown => ["stair speed: down (ft/s)"]
    case StairUp => ["stair speed: up (ft/s)"]
    case Steps => ["step count (count)"]
    case DistanceMi => ["walking + running distance (mi)"]
    case AsymPct => ["walking asymmetry percentage (%)"]
    case DoubleSupp => ["walking double support percentage (%)"]
    case WalkHrAvg => ["walking heart rate average (count/min)"]
    case WalkSpeed => ["walking speed (mi/hr)"]
    case StepLenIn => ["walking step length (in)"]
  }

  /** The number of columns the upload looks up. */
  const FieldCount: nat := 24

  /** The field looked up at step i: the order in which the columns are resolved and later copied out of each record. */
  function FieldAt(i: nat): (f: Field)
    requires i < FieldCount
    ensures Position(f) == i
  {
    match i
    case 0 => Date case 1 => ActiveEnergy case 2 => ExerciseMin case 3 => StandHour
    case 4 => StandMin case 5 => Spo2 case 6 => AudioDb case 7 => Flights
    case 8 => HrMin case 9 => HrMax case 10 => HrAvg case 11 => HrvMs
    case 12 => PhysEff case 13 => RestEnergy case 14 => RestingHr case 15 => StairDown
    case 16 => StairUp case 17 => Steps case 18 => DistanceMi case 19 => AsymPct
    case 20 => DoubleSupp case 21 => WalkHrAvg case 22 => WalkSpeed case _ => StepLenIn
  }

  /** Where a field stands in the order: every field is looked up, at exactly one step. */
  function Position(f: Field): (i: nat)
    ensures i < FieldCount
  {
    match f
    case Date => 0 case ActiveEnergy => 1 case ExerciseMin => 2 case StandHour => 3
    case StandMin => 4 case Spo2 => 5 case AudioDb => 6 case Flights => 7
    case HrMin => 8 case HrMax => 9 case HrAvg => 10 case HrvMs => 11
    case PhysEff => 12 case RestEnergy => 13 case RestingHr => 14 case StairDown => 15
    case StairUp => 16 case Steps => 17 case DistanceMi => 18 case AsymPct => 19
    case DoubleSupp => 20 case WalkHrAvg => 21 case WalkSpeed => 22 case StepLenIn => 23
  }

  lemma PositionInverse(f: Field)
    ensures FieldAt(Position(f)) == f
  {
  }

  /** One lookup: a field and the header texts accepted for it. */
  datatype Lookup = Lookup(field: Field, aliases: seq<string>)

  /** The lookups of the upload, in source order. */
  function Lookups(): seq<Lookup> {
    seq(FieldCount, i requires 0 <= i < FieldCount => Lookup(FieldAt(i), Aliases(FieldAt(i))))
  }

  /** Physical effort is looked up with `any`; every other field with `req`. */
  predicate Required(f: Field) {
    f != PhysEff
  }

  /** No field appears twice in a table. */
  predicate FieldsDistinct(table: seq<Lookup>) {
    forall i, k :: 0 <= i < k < |table| ==> table[i].field != table[k].field
  }

  /** Every field is looked up exactly once, and under its own aliases. */
  lemma LookupsComplete()
    ensures FieldsDistinct(Lookups())
    ensures forall f :: Position(f) < |Lookups()| && Lookups()[Position(f)] == Lookup(f, Aliases(f))
  {
    forall i, k | 0 <= i < k < |Lookups()| ensures Lookups()[i].field != Lookups()[k].field {
      assert Position(Lookups()[i].field) == i && Position(Lookups()[k].field) == k;
    }
    forall f ensures Position(f) < |Lookups()| && Lookups()[Position(f)] == Lookup(f, Aliases(f)) {
      PositionInverse(f);
    }
  }

  /** The normalised form of the first alias that is a key of the index, if any (the exact pass of `req`). */
  function FirstExact(idx: Index, expects: seq<string>): (r: Option<string>)
    ensures r.None? <==> forall j :: 0 <= j < |expects| ==> Norm(expects[j]) !in idx
    ensures r.Some? ==> r.value in idx
    ensures r.Some? ==> exists j :: 0 <= j < |expects| && r.value == Norm(expects[j]) && forall i :: 0 <= i < j ==> Norm(expects[i]) !in idx
  {
    if expects == [] then None
    else if Norm(expects[0]) in idx then Some(Norm(expects[0]))
    else
      var r := FirstExact(idx, expects[1..]);
      assert forall j :: 1 <= j < |expects| ==> expects[1..][j - 1] == expects[j];
      r
  }

  /** The header contains the normalised form of one of the aliases. */
  predicate MatchesAlias(key: string, expects: seq<string>) {
    exists j :: 0 <= j < |expects| && Contains(key, Norm(expects[j]))
  }

  /** A key equal to a normalised alias also contains it: the substring pass would find every exact key too. */
  lemma ExactIsLoose(idx: Index, expects: seq<string>)
    ensures FirstExact(idx, expects).Some? ==> MatchesAlias(FirstExact(idx, expects).value, expects)
    ensures Resolvable(idx, expects) <==> exists k :: k in idx && MatchesAlias(k, expects)
  {
    var r := FirstExact(idx, expects);
    if r.Some? {
      var j :| 0 <= j < |expects| && r.value == Norm(expects[j]) && forall i :: 0 <= i < j ==> Norm(expects[i]) !in idx;
      ContainsSelf(r.value);
      assert Contains(r.value, Norm(expects[j]));
    }
  }

  /** What `req` may answer: the first exact alias, or, when there is none, some key containing an alias. */
  predicate Resolves(idx: Index, expects: seq<string>, key: string) {
    match FirstExact(idx, expects)
    case Some(k) => key == k
    case None => key in idx && MatchesAlias(key, expects)
  }

  /** `req` returns instead of throwing. */
  predicate Resolvable(idx: Index, expects: seq<string>) {
    FirstExact(idx, expects).Some? || exists k :: k in idx && MatchesAlias(k, expects)
  }

  /**
   * `any`: some key of the index (in the map's own iteration order, left open here) that
   * contains a normalised needle, or null when none does. It never throws.
   */
  method Any(idx: Index, needles: seq<string>) returns (r: Option<string>)
    ensures r.Some? ==> r.value in idx && MatchesAlias(r.value, needles)
    ensures r.None? <==> forall k :: k in idx ==> !MatchesAlias(k, needles)
  {
    var keys := idx.Keys;
    while keys != {}
      invariant keys <= idx.Keys
      invariant forall k :: k in idx && k !in keys ==> !MatchesAlias(k, needles)
      decreases keys
    {
      var key :| key in keys;
      for j := 0 to |needles|
        invariant forall i :: 0 <= i < j ==> !Contains(key, Norm(needles[i]))
      {
        if Contains(key, Norm(needles[j])) {
          return Some(key);
        }
      }
      keys := keys - {key};
    }
    return None;
  }

  /**
   * `req`: the normalised form of the first alias that is an exact key; failing that, some key
   * containing an alias; otherwise `MissingColumn` listing the aliases.
   */
  method Req(idx: Index, expects: seq<string>) returns (r: Result<string, UploadError>)
    ensures r.Ok? ==> r.value in idx && Resolves(idx, expects, r.value)
    ensures r.Err? <==> !Resolvable(idx, expects)
    ensures r.Err? ==> r.error == MissingColumn(expects)
  {
    for j := 0 to |expects|
      invariant forall i :: 0 <= i < j ==> Norm(expects[i]) !in idx
    {
      var k := Norm(expects[j]);
      if k in idx {
        return Ok(k);
      }
    }
    var loose := Any(idx, expects);
    if loose.Some? {
      return Ok(loose.value);
    }
    return Err(MissingColumn(expects));
  }

  /** A lookup that succeeds: `req` when the field is resolvable, `any` when some key matches. */
  predicate Found(idx: Index, l: Lookup) {
    if Required(l.field) then Resolvable(idx, l.aliases) else exists k :: k in idx && MatchesAlias(k, l.aliases)
  }

  /** The key chosen for a lookup is one that `req` (or, for physical effort, `any`) may answer. */
  predicate Answers(idx: Index, l: Lookup, key: string) {
    key in idx && if Required(l.field) then Resolves(idx, l.aliases, key) else MatchesAlias(key, l.aliases)
  }

  /** What a successful resolution of a table looks like: each field found is bound to a key it may answer. */
  predicate ValidColumns(idx: Index, table: seq<Lookup>, cols: map<Field, string>) {
    && forall i :: 0 <= i < |table| ==>
         && (table[i].field in cols <==> Found(idx, table[i]))
         && (table[i].field in cols ==> Answers(idx, table[i], cols[table[i].field]))
  }

  /** The lookup at position j is the first required one that cannot be resolved. */
  predicate FirstMissing(idx: Index, table: seq<Lookup>, j: int) {
    && 0 <= j < |table|
    && Required(table[j].field) && !Resolvable(idx, table[j].aliases)
    && forall i :: 0 <= i < j && Required(table[i].field) ==> Resolvable(idx, table[i].aliases)
  }

  /** One line of the lookups: `req` for a required field, `any` for physical effort. */
  method LookUp(idx: Index, l: Lookup) returns (r: Result<Option<string>, UploadError>)
    ensures r.Err? <==> Required(l.field) && !Resolvable(idx, l.aliases)
    ensures r.Err? ==> r.error == MissingColumn(l.aliases)
    ensures r.Ok? ==> (r.value.Some? <==> Found(idx, l))
    ensures r.Ok? && r.value.Some? ==> Answers(idx, l, r.value.value)
  {
    if Required(l.field) {
      var k := Req(idx, l.aliases);
      if k.Err? {
        return Err(k.error);
      }
      return Ok(Some(k.value));
    } else {
      var k := Any(idx, l.aliases);
      return Ok(k);
    }
  }

  /**
   * The column lookups of the upload, one after the other: `req` for each required field and
   * `any` for physical effort. The first required field that cannot be resolved aborts with its aliases.
   */
  method ResolveColumns(idx: Index, table: seq<Lookup>) returns (r: Result<map<Field, string>, UploadError>)
    requires FieldsDistinct(table)
    ensures r.Ok? <==> forall i :: 0 <= i < |table| && Required(table[i].field) ==> Resolvable(idx, table[i].aliases)
    ensures r.Ok? ==> ValidColumns(idx, table, r.value)
    ensures r.Err? ==> exists j :: FirstMissing(idx, table, j) && r.error == MissingColumn(table[j].aliases)
  {
    var cols: map<Field, string> := map[];
    for j := 0 to |table|
      invariant forall i :: j <= i < |table| ==> table[i].field !in cols
      invariant forall i :: 0 <= i < j ==> (table[i].field in cols <==> Found(idx, table[i]))
      invariant forall i :: 0 <= i < j && table[i].field in cols ==> Answers(idx, table[i], cols[table[i].field])
      invariant forall i :: 0 <= i < j && Required(table[i].field) ==> Resolvable(idx, table[i].aliases)
    {
      var l := table[j];
      assert forall i :: 0 <= i < j ==> table[i].field != l.field;
      var k := LookUp(idx, l);
      if k.Err? {
        assert FirstMissing(idx, table, j);
        return Err(k.error);
      }
      if k.value.Some? {
        cols := cols[l.field := k.value.value];
      }
    }
    return Ok(cols);
  }
}
