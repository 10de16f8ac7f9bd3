/** The template table of the index feed (indexfeed/pkg/database/database.go:43-55, 107-121): how an upsert changes
    a row, and what a row holds after any number of them. */
module TemplateUpserts {
  import opened Options

  type Labels = map<string, string>

  /** A row, and also the candidate for one; times are never null. */
  datatype Row = Row(text: string, regex: string, labels: Labels, firstSeen: int, lastSeen: int, version: string)

  function Least(a: int, b: int): int { if b < a then b else a }

  function Greatest(a: int, b: int): int { if a < b then b else a }

  /** The WHERE clause. */
  predicate Applies(row: Row, c: Row) { row.version != c.version || row.lastSeen < c.lastSeen }

  function Upserted(old_: Option<Row>, c: Row): Row {
    match old_
    case None => c
    case Some(row) =>
      if Applies(row, c)
      then c.(firstSeen := Least(row.firstSeen, c.firstSeen), lastSeen := Greatest(row.lastSeen, c.lastSeen))
      else row
  }

  function Upserts(cs: seq<Row>): Option<Row> {
    if cs == [] then None else Some(Upserted(Upserts(cs[..|cs| - 1]), cs[|cs| - 1]))
  }

  // ----------------------------------------------------------------- tables

  type TemplateKey = (string, string)

  class Database {
    var templates: map<TemplateKey, Row>

    constructor ()
      ensures templates == map[]
    {
      templates := map[];
    }

    method UpsertTemplate(tenant: string, templateId: string, text: string, regex: string, labels: Labels,
                          firstSeen: int, lastSeen: int, version: string)
      modifies this`templates
      ensures var key, c := (tenant, templateId), Row(text, regex, labels, firstSeen, lastSeen, version);
              templates == old(templates)[key := Upserted(RowOf(old(templates), key), c)]
    {
      var key := (tenant, templateId);
      if key !in templates {
        templates := templates[key := Row(text, regex, labels, firstSeen, lastSeen, version)];
        return;
      }
      var row := templates[key];
      if row.version != version || row.lastSeen < lastSeen {
        row := row.(text := text);
        row := row.(regex := regex);
        row := row.(labels := labels);
        row := row.(firstSeen := if firstSeen < row.firstSeen then firstSeen else row.firstSeen);
        row := row.(lastSeen := if row.lastSeen < lastSeen then lastSeen else row.lastSeen);
        row := row.(version := version);
        templates := templates[key := row];
      }
    }
  }

  function RowOf(templates: map<TemplateKey, Row>, key: TemplateKey): Option<Row> {
    if key in templates then Some(templates[key]) else None
  }

  datatype Upsert = Upsert(key: TemplateKey, row: Row)

  function Table(us: seq<Upsert>): map<TemplateKey, Row> {
    if us == [] then map[]
    else
      var t, u := Table(us[..|us| - 1]), us[|us| - 1];
      t[u.key := Upserted(RowOf(t, u.key), u.row)]
  }

  function Candidates(us: seq<Upsert>, key: TemplateKey): seq<Row> {
    if us == [] then []
    else Candidates(us[..|us| - 1], key) + if us[|us| - 1].key == key then [us[|us| - 1].row] else []
  }

  /** Rows do not disturb each other. */
  lemma {:induction false} TableByKey(us: seq<Upsert>, key: TemplateKey)
    ensures RowOf(Table(us), key) == Upserts(Candidates(us, key))
  {
    if us != [] {
      var vs, u := us[..|us| - 1], us[|us| - 1];
      TableByKey(vs, key);
      var cs := Candidates(vs, key);
      assert (cs + [u.row])[..|cs|] == cs;
      assert cs + [] == cs;
      hide Upserted;
    }
  }

  // -------------------------------------------------------------- last seen

  ghost predicate IsLatest(cs: seq<Row>, t: int) {
    && (forall i | 0 <= i < |cs| :: cs[i].lastSeen <= t)
    && (exists i :: 0 <= i < |cs| && cs[i].lastSeen == t)
  }

  lemma {:induction false} LastSeenIsLatest(cs: seq<Row>)
    requires cs != []
    ensures IsLatest(cs, Upserts(cs).value.lastSeen)
  {
    var bs, n := cs[..|cs| - 1], |cs| - 1;
    if bs == [] {
      assert cs[0].lastSeen == Upserts(cs).value.lastSeen;
    } else {
      LastSeenIsLatest(bs);
      var t := Upserts(bs).value.lastSeen;
      var i :| 0 <= i < |bs| && bs[i].lastSeen == t;
      assert Upserts(cs).value.lastSeen == Greatest(t, cs[n].lastSeen);
      assert cs[i].lastSeen == t;
      forall j | 0 <= j < |cs| ensures cs[j].lastSeen <= Greatest(t, cs[n].lastSeen) {
        if j < n { assert bs[j].lastSeen <= t; }
      }
    }
  }

  lemma LatestUnique(cs: seq<Row>, ds: seq<Row>, s: int, t: int)
    requires multiset(cs) == multiset(ds) && IsLatest(cs, s) && IsLatest(ds, t)
    ensures s == t
  {
    var i :| 0 <= i < |cs| && cs[i].lastSeen == s;
    var j :| 0 <= j < |ds| && ds[j].lastSeen == t;
    assert cs[i] in multiset(ds) && ds[j] in multiset(cs);
  }

  /** The last sighting is the latest of all candidates', in whatever order they came. */
  lemma LastSeenIgnoresOrder(cs: seq<Row>, ds: seq<Row>)
    requires cs != [] && multiset(cs) == multiset(ds)
    ensures ds != [] && IsLatest(cs, Upserts(cs).value.lastSeen)
    ensures Upserts(cs).value.lastSeen == Upserts(ds).value.lastSeen
  {
    assert cs[0] in multiset(ds);
    LastSeenIsLatest(cs);
    LastSeenIsLatest(ds);
    LatestUnique(cs, ds, Upserts(cs).value.lastSeen, Upserts(ds).value.lastSeen);
  }

  // ------------------------------------------------------------- first seen

  /** An upsert brings the first sighting up to date exactly if it applies or has nothing to bring. */
  lemma FirstSeenExactly(row: Row, c: Row)
    ensures Upserted(Some(row), c).firstSeen <= row.firstSeen
    ensures Upserted(Some(row), c).firstSeen == Least(row.firstSeen, c.firstSeen)
            <==> Applies(row, c) || row.firstSeen <= c.firstSeen
  {
  }

  /** The candidates that were let through. */
  function Applied(cs: seq<Row>): seq<Row> {
    if cs == [] then []
    else
      var n := |cs| - 1;
      var row := Upserts(cs[..n]);
      Applied(cs[..n]) + if row.None? || Applies(row.value, cs[n]) then [cs[n]] else []
  }

  ghost predicate IsEarliest(cs: seq<Row>, t: int) {
    && (forall i | 0 <= i < |cs| :: t <= cs[i].firstSeen)
    && (exists i :: 0 <= i < |cs| && cs[i].firstSeen == t)
  }

  lemma EarliestMore(cs: seq<Row>, t: int, c: Row)
    requires IsEarliest(cs, t)
    ensures IsEarliest(cs + [c], Least(t, c.firstSeen))
  {
    var i :| 0 <= i < |cs| && cs[i].firstSeen == t;
    var k := if c.firstSeen < t then |cs| else i;
    assert (cs + [c])[k].firstSeen == Least(t, c.firstSeen);
  }

  /** A row's first sighting is the earliest, and everything else that of the last, of the candidates let
      through. */
  lemma {:induction false} RowIsOfApplied(cs: seq<Row>)
    requires cs != []
    ensures var row, as_ := Upserts(cs).value, Applied(cs);
            && as_ != [] && IsEarliest(as_, row.firstSeen)
            && as_[|as_| - 1].(firstSeen := row.firstSeen, lastSeen := row.lastSeen) == row
  {
    var bs, c := cs[..|cs| - 1], cs[|cs| - 1];
    if bs == [] {
      assert Applied(cs) == [c];
      assert [c][0].firstSeen == c.firstSeen;
    } else {
      RowIsOfApplied(bs);
      EarliestMore(Applied(bs), Upserts(bs).value.firstSeen, c);
    }
  }

  /** A candidate is let through if it is the first, of another version than the one before it, or seen after
      all before it. */
  ghost predicate LetThrough(cs: seq<Row>, i: nat)
    requires i < |cs|
  {
    i == 0 || cs[i].version != cs[i - 1].version || forall j | 0 <= j < i :: cs[j].lastSeen < cs[i].lastSeen
  }

  /** The row's version is that of the last candidate, let through or not. */
  lemma VersionIsLast(cs: seq<Row>)
    requires cs != []
    ensures Upserts(cs).value.version == cs[|cs| - 1].version
  {
  }

  lemma LetThroughApplies(cs: seq<Row>)
    requires |cs| > 1
    ensures var n := |cs| - 1; LetThrough(cs, n) <==> Applies(Upserts(cs[..n]).value, cs[n])
  {
    var n := |cs| - 1;
    var bs := cs[..n];
    VersionIsLast(bs);
    LastSeenIsLatest(bs);
    var t := Upserts(bs).value.lastSeen;
    var j :| 0 <= j < |bs| && bs[j].lastSeen == t;
    assert cs[j].lastSeen == t;
    if t < cs[n].lastSeen {
      forall j | 0 <= j < n ensures cs[j].lastSeen < cs[n].lastSeen { assert bs[j].lastSeen <= t; }
    }
  }

  lemma LetThroughWithin(cs: seq<Row>, n: nat, i: nat)
    requires i < n <= |cs|
    ensures LetThrough(cs[..n], i) <==> LetThrough(cs, i)
  {
  }

  /** t is the earliest first sighting of the candidates let through. */
  ghost predicate EarliestLetThrough(cs: seq<Row>, t: int) {
    && (forall i: nat | i < |cs| && LetThrough(cs, i) :: t <= cs[i].firstSeen)
    && (exists i: nat :: i < |cs| && LetThrough(cs, i) && cs[i].firstSeen == t)
  }

  lemma EarliestNext(cs: seq<Row>, t: int)
    requires |cs| > 1 && EarliestLetThrough(cs[..|cs| - 1], t)
    ensures var n := |cs| - 1;
            EarliestLetThrough(cs, if LetThrough(cs, n) then Least(t, cs[n].firstSeen) else t)
  {
    var n := |cs| - 1;
    hide LetThrough;
    forall i: nat | i < n ensures LetThrough(cs[..n], i) <==> LetThrough(cs, i) { LetThroughWithin(cs, n, i); }
    var k: nat :| k < n && LetThrough(cs[..n], k) && cs[..n][k].firstSeen == t;
    var u := if LetThrough(cs, n) then Least(t, cs[n].firstSeen) else t;
    var j := if u == t then k else n;
    assert LetThrough(cs, j) && cs[j].firstSeen == u;
    forall i: nat | i < |cs| && LetThrough(cs, i) ensures u <= cs[i].firstSeen {
      if i < n { assert t <= cs[..n][i].firstSeen; }
    }
  }

  /** The first sighting is the earliest of the candidates let through. */
  lemma {:induction false} FirstSeenOfLetThrough(cs: seq<Row>)
    requires cs != []
    ensures EarliestLetThrough(cs, Upserts(cs).value.firstSeen)
  {
    var n := |cs| - 1;
    if n == 0 {
      assert LetThrough(cs, 0);
    } else {
      FirstSeenOfLetThrough(cs[..n]);
      LetThroughApplies(cs);
      EarliestNext(cs, Upserts(cs[..n]).value.firstSeen);
      hide LetThrough, EarliestLetThrough;
    }
  }

  /** After any candidates, the row's first sighting is the earliest of all if and only if a candidate with the
      earliest was let through. */
  lemma FirstSeenIsEarliestExactly(cs: seq<Row>)
    requires cs != []
    ensures IsEarliest(cs, Upserts(cs).value.firstSeen)
            <==> exists i: nat :: i < |cs| && LetThrough(cs, i) && IsEarliest(cs, cs[i].firstSeen)
  {
    FirstSeenOfLetThrough(cs);
    hide LetThrough, Upserts;
    var t := Upserts(cs).value.firstSeen;
    var k: nat :| k < |cs| && LetThrough(cs, k) && cs[k].firstSeen == t;
    if i: nat :| i < |cs| && LetThrough(cs, i) && IsEarliest(cs, cs[i].firstSeen) {
      assert cs[i].firstSeen <= cs[k].firstSeen && t <= cs[i].firstSeen;
    }
  }

  /** A late report of an early sighting is lost, unless it comes first. */
  lemma FirstSeenDependsOnOrder()
    ensures var a, b := Row("", "", map[], 5, 10, "v"), Row("", "", map[], 1, 9, "v");
            Upserts([a, b]).Some? && Upserts([a, b]).value.firstSeen == 5
            && Upserts([b, a]).Some? && Upserts([b, a]).value.firstSeen == 1
  {
    var a, b := Row("", "", map[], 5, 10, "v"), Row("", "", map[], 1, 9, "v");
    UpsertsTwo(a, b);
    UpsertsTwo(b, a);
  }

  lemma UpsertsTwo(a: Row, b: Row)
    ensures Upserts([a, b]) == Some(Upserted(Some(a), b))
  {
    var one, two := [a], [a, b];
    assert one[..0] == [] && two[..1] == one;
    assert Upserts(one) == Some(a);
  }

  // --------------------------------------------------------------- the rest

  /** Sightings stay in order. */
  lemma {:induction false} SeenInOrder(cs: seq<Row>)
    requires cs != [] && forall i | 0 <= i < |cs| :: cs[i].firstSeen <= cs[i].lastSeen
    ensures Upserts(cs).value.firstSeen <= Upserts(cs).value.lastSeen
  {
    if |cs| > 1 { SeenInOrder(cs[..|cs| - 1]); }
  }

  /** Repeating the latest candidate changes nothing. */
  lemma RepeatChangesNothing(cs: seq<Row>)
    requires cs != []
    ensures Upserts(cs + [cs[|cs| - 1]]) == Upserts(cs)
  {
    assert (cs + [cs[|cs| - 1]])[..|cs|] == cs;
  }
}
