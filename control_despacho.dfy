/** The dispatch-control page: the rows of the dispatch table built from the
    service's records, their totals, the search over them and the Excel
    layout of the export. */
module ControlDespacho {
  import opened Wrappers
  import opened Text
  import opened Clock
  import OfflineGps

  // ---------------------------------------------------------------- route tables

  const HeadersRuta5: seq<string> := [
    "Unidad", "Hora Inicio", "Hora Registro",
    "VENEZUELA", "GARZON", "OBRERO", "AV SAN JUAN", "MADRID", "CT", "GRIFO MILAGRO",
    "Conductor", "Total"]

  const HeadersRuta6: seq<string> := [
    "Unidad", "Hora Inicio", "Hora Registro",
    "PACIFICO", "CT", "MADRID", "ARRIOLA", "TRANSITO", "BOLIVAR", "INSURGENTES",
    "Conductor", "Total"]

  const ControlesRuta5: seq<string> := ["VENEZUELA", "GARZON", "OBRERO", "AV SAN JUAN", "MADRID", "CT", "GRIFO MILAGRO"]

  const ControlesRuta6: seq<string> := ["PACIFICO", "CT", "MADRID", "ARRIOLA", "TRANSITO", "BOLIVAR", "INSURGENTES"]

  /** The columns that hold a control, for both routes. */
  const SubdividedColumns: seq<nat> := [3, 4, 5, 6, 7, 8, 9]

  /** `handleSearch` takes the route-6 tables for route "6" and the route-5
      tables for any other value. */
  function HeadersFor(route: string): seq<string> {
    if route == "6" then HeadersRuta6 else HeadersRuta5
  }

  function ControlesFor(route: string): seq<string> {
    if route == "6" then ControlesRuta6 else ControlesRuta5
  }

  predicate IsUpper(s: string) {
    forall i :: 0 <= i < |s| ==> !('a' <= s[i] <= 'z')
  }

  lemma UpperOfUpper(s: string)
    requires IsUpper(s)
    ensures Upper(s) == s
  {
  }

  /** The control columns of the headers are the route's controls, in order;
      each control is a non-empty upper-case name and ahead of them stand the
      three columns of the dispatch, after them the driver and the total. */
  lemma RouteTables(route: string)
    ensures var hs := HeadersFor(route);
            && |hs| == 12 && |ControlesFor(route)| == 7
            && hs[3..10] == ControlesFor(route)
            && hs[..3] == ["Unidad", "Hora Inicio", "Hora Registro"] && hs[10] == "Conductor" && hs[11] == "Total"
    ensures forall i :: i in SubdividedColumns <==> 3 <= i < 10
    ensures forall k :: 0 <= k < 7 ==> ControlesFor(route)[k] != "" && Upper(ControlesFor(route)[k]) == ControlesFor(route)[k]
  {
    if route == "6" {
      UpperNames(ControlesRuta6);
    } else {
      UpperNames(ControlesRuta5);
    }
  }

  /** Each control of a route's table is a non-empty upper-case name. */
  lemma UpperNames(cs: seq<string>)
    requires cs == ControlesRuta5 || cs == ControlesRuta6
    ensures forall k :: 0 <= k < |cs| ==> cs[k] != "" && Upper(cs[k]) == cs[k]
  {
    forall k | 0 <= k < |cs|
      ensures cs[k] != "" && Upper(cs[k]) == cs[k]
    {
      assert IsUpper(cs[k]);
      UpperOfUpper(cs[k]);
    }
  }

  // ---------------------------------------------------------------- the service's records

  /** A control of a dispatch as the service reports it; every field may be missing. */
  datatype Control = Control(
    nomControl: Option<string>,
    horaEstimada: Option<string>,
    horaLlegada: Option<string>,
    volado: Option<string>)

  datatype Despacho = Despacho(
    codasig: int,
    deviceid: string,
    horaInicio: string,
    horaRegistro: string,
    nombreConductor: string,
    controles: seq<Control>)

  // ---------------------------------------------------------------- volado normalisation

  /** The volado shown for a control: nothing gives "0"; text that mentions
      minutes gives its leading signed integer; seconds alone give "+0"; any
      other text gives its leading signed integer; "0" when there is none. */
  function NormaliseVolado(volado: Option<string>): (r: string)
    ensures r == "0" || r == "+0" || (volado.Some? && Some(r) == LeadingInteger(Trim(volado.value)))
  {
    if volado.None? || volado.value == "" then "0"
    else
      var voladoStr := Trim(volado.value);
      if Contains(Lower(voladoStr), "m") then LeadingInteger(voladoStr).GetOr("0")
      else if EndsWith(Lower(voladoStr), "seg") then "+0"
      else LeadingInteger(voladoStr).GetOr("0")
  }

  /** `s.match(/^[+-]?\d+/)?.[0]` is an optional sign and digits, and
      matches itself whole. */
  lemma LeadingIntegerShape(s: string)
    requires LeadingInteger(s).Some?
    ensures var r := LeadingInteger(s).value;
            && |r| > 0 && r == s[..|r|]
            && (IsSign(r[0]) ==> |r| > 1 && AllDigits(r[1..])) && (!IsSign(r[0]) ==> AllDigits(r))
            && LeadingInteger(r) == Some(r)
  {
    var k := if |s| > 0 && IsSign(s[0]) then 1 else 0;
    var n := DigitRun(s[k..]);
    var r := s[..k + n];
    assert r[k..] == s[k..][..n];
    DigitRunAll(r[k..]);
    if k == 0 {
      assert !IsSign(r[0]) by { assert IsDigit(r[0]); }
    } else {
      assert r[0] == s[0];
    }
    assert DigitRun(r[k..]) == n;
    assert r[..k + n] == r;
  }

  /** Every normalised volado is a signed integer in text, and parses as one. */
  lemma NormalisedIsInteger(volado: Option<string>)
    ensures var r := NormaliseVolado(volado);
            LeadingInteger(r) == Some(r) && ParseInt(r).Some?
  {
    var r := NormaliseVolado(volado);
    if r == "0" || r == "+0" {
      assert DigitRun("0") == 1 by { assert "0"[1..] == ""; }
      assert "+0"[1..] == "0";
      assert r[..|r|] == r;
      assert LeadingInteger(r) == Some(r);
      SignedDigitsParse(r);
    } else {
      LeadingIntegerShape(Trim(volado.value));
      SignedDigitsParse(r);
    }
  }

  /** A sign followed by digits, or digits alone, parses. */
  lemma SignedDigitsParse(r: string)
    requires |r| > 0
    requires (IsSign(r[0]) ==> |r| > 1 && AllDigits(r[1..])) && (!IsSign(r[0]) ==> AllDigits(r))
    ensures ParseInt(r).Some?
  {
    var k := if IsSign(r[0]) then 1 else 0;
    assert !IsSpace(r[0]);
    assert TrimStart(r) == r;
    var body := r[k..];
    DigitRunAll(body);
    assert |body| >= 2 ==> body[1] != 'x' && body[1] != 'X' by {
      if |body| >= 2 { assert IsDigit(body[1]); }
    }
  }

  // ---------------------------------------------------------------- rows of the table

  /** A cell of a row: a text, or the estimated, arrival and volado texts of a control. */
  datatype Cell = Text(text: string) | Parts(parts: seq<string>)

  type Row = seq<Cell>

  const Blank: seq<string> := ["", "", ""]

  /** The key under which a control is filed: its name in upper case, trimmed;
      `None` when the name is missing or comes out empty. */
  function ControlKey(c: Control): Option<string> {
    if c.nomControl.None? then None
    else
      var nom := Trim(Upper(c.nomControl.value));
      if nom == "" then None else Some(nom)
  }

  /** The three texts filed for a control. */
  function ControlTriple(c: Control): (t: seq<string>)
    ensures |t| == 3
  {
    [c.horaEstimada.GetOr(""), c.horaLlegada.GetOr(""), NormaliseVolado(c.volado)]
  }

  /** The map of the route's controls, each filed blank, after the first `n`. */
  function InitialMap(controles: seq<string>, n: nat): (m: map<string, seq<string>>)
    requires n <= |controles|
    ensures forall key :: key in m <==> exists k :: 0 <= k < n && key == Upper(controles[k])
    ensures forall key :: key in m ==> m[key] == Blank
  {
    if n == 0 then map[] else InitialMap(controles, n - 1)[Upper(controles[n - 1]) := Blank]
  }

  /** The map after the first `n` controls of a dispatch: each whose key is
      already in the map replaces the triple under that key. */
  function FileControls(m: map<string, seq<string>>, cs: seq<Control>, n: nat): map<string, seq<string>>
    requires n <= |cs|
  {
    if n == 0 then m
    else
      var prev := FileControls(m, cs, n - 1);
      var key := ControlKey(cs[n - 1]);
      if key.Some? && key.value in prev then prev[key.value := ControlTriple(cs[n - 1])] else prev
  }

  /** `headers.map(...).filter(...)` over the first `n` headers: the triple
      filed under each header in a control column. */
  function ControlValues(headers: seq<string>, controlMap: map<string, seq<string>>, n: nat): seq<Cell>
    requires n <= |headers|
  {
    if n == 0 then []
    else
      ControlValues(headers, controlMap, n - 1)
      + (if n - 1 in SubdividedColumns then
           [Parts(if headers[n - 1] in controlMap then controlMap[headers[n - 1]] else [])]
         else [])
  }

  /** The map `handleSearch` fills for a dispatch. */
  function ControlMapFor(route: string, item: Despacho): map<string, seq<string>> {
    var controles := ControlesFor(route);
    FileControls(InitialMap(controles, |controles|), item.controles, |item.controles|)
  }

  /** The row `handleSearch` builds for a dispatch. */
  function RowFor(route: string, item: Despacho): (row: Row)
    ensures |row| == 11
  {
    var headers := HeadersFor(route);
    RouteTables(route);
    ControlValuesInOrder(headers, ControlMapFor(route, item), 12);
    [Text(item.deviceid), Text(item.horaInicio), Text(item.horaRegistro)]
    + ControlValues(headers, ControlMapFor(route, item), |headers|)
    + [Text(item.nombreConductor)]
  }

  /** The first loop of `handleSearch`: every control of the route filed blank. */
  method BlankControlMap(controles: seq<string>) returns (controlMap: map<string, seq<string>>)
    ensures controlMap == InitialMap(controles, |controles|)
  {
    controlMap := map[];
    for n := 0 to |controles|
      invariant controlMap == InitialMap(controles, n)
    {
      controlMap := controlMap[Upper(controles[n]) := Blank];
    }
  }

  /** The second loop of `handleSearch`: each control of the dispatch whose
      key is already in the map replaces the triple under that key. */
  method FileDispatchControls(initial: map<string, seq<string>>, cs: seq<Control>)
    returns (controlMap: map<string, seq<string>>)
    ensures controlMap == FileControls(initial, cs, |cs|)
  {
    controlMap := initial;
    for n := 0 to |cs|
      invariant controlMap == FileControls(initial, cs, n)
    {
      var c := cs[n];
      ghost var key := ControlKey(c);
      assert FileControls(initial, cs, n + 1)
             == if key.Some? && key.value in controlMap then controlMap[key.value := ControlTriple(c)] else controlMap;
      if c.nomControl.Some? {
        var nom := Trim(Upper(c.nomControl.value));
        if nom != "" && nom in controlMap {
          controlMap := controlMap[nom := [c.horaEstimada.GetOr(""), c.horaLlegada.GetOr(""), NormaliseVolado(c.volado)]];
        }
      }
    }
  }

  /** The row built for one dispatch: the map filled by the two loops of
      `handleSearch`, then read in header order. */
  method BuildRow(route: string, item: Despacho) returns (row: Row)
    ensures row == RowFor(route, item)
  {
    var headers := HeadersFor(route);
    var controles := ControlesFor(route);
    var base := [Text(item.deviceid), Text(item.horaInicio), Text(item.horaRegistro)];
    var initial := BlankControlMap(controles);
    var controlMap := FileDispatchControls(initial, item.controles);
    assert controlMap == ControlMapFor(route, item);
    row := base + ControlValues(headers, controlMap, |headers|) + [Text(item.nombreConductor)];
  }

  /** The control values read from the twelve headers are the triples filed
      under headers 3 to 9, in order. */
  lemma {:induction false} ControlValuesInOrder(headers: seq<string>, controlMap: map<string, seq<string>>, n: nat)
    requires |headers| == 12 && n <= 12
    ensures var len := if n <= 3 then 0 else if n <= 10 then n - 3 else 7;
            && |ControlValues(headers, controlMap, n)| == len
            && forall k :: 0 <= k < len ==>
                 ControlValues(headers, controlMap, n)[k]
                 == Parts(if headers[3 + k] in controlMap then controlMap[headers[3 + k]] else [])
  {
    RouteTables("5");
    if n > 0 {
      ControlValuesInOrder(headers, controlMap, n - 1);
    }
  }

  /** The control values read from the twelve headers are seven control cells. */
  lemma {:induction false} ControlCells(headers: seq<string>, controlMap: map<string, seq<string>>, n: nat)
    requires |headers| == 12 && n <= 12
    ensures |ControlValues(headers, controlMap, n)| == if n <= 3 then 0 else if n <= 10 then n - 3 else 7
    ensures forall k :: 0 <= k < |ControlValues(headers, controlMap, n)| ==> ControlValues(headers, controlMap, n)[k].Parts?
  {
    if n > 0 {
      ControlCells(headers, controlMap, n - 1);
      assert n - 1 in SubdividedColumns <==> 3 <= n - 1 < 10;
    }
  }

  /** Filing never adds or drops a key. */
  lemma {:induction false} FiledKeys(m: map<string, seq<string>>, cs: seq<Control>, n: nat)
    requires n <= |cs|
    ensures FileControls(m, cs, n).Keys == m.Keys
  {
    if n > 0 {
      FiledKeys(m, cs, n - 1);
    }
  }

  /** No control among the first `n` is filed under `key`. */
  predicate NoneFiled(cs: seq<Control>, n: nat, key: string)
    requires n <= |cs|
  {
    forall j :: 0 <= j < n ==> ControlKey(cs[j]) != Some(key)
  }

  /** The control at `j` is the last among the first `n` filed under `key`. */
  predicate LastFiled(cs: seq<Control>, n: nat, key: string, j: nat)
    requires n <= |cs|
  {
    j < n && ControlKey(cs[j]) == Some(key) && forall i :: j < i < n ==> ControlKey(cs[i]) != Some(key)
  }

  /** One filing step: the control filed under `key` replaces its entry. */
  lemma FiledStep(m: map<string, seq<string>>, cs: seq<Control>, n: nat, key: string)
    requires 0 < n <= |cs| && key in FileControls(m, cs, n - 1)
    ensures key in FileControls(m, cs, n)
    ensures FileControls(m, cs, n)[key] ==
            if ControlKey(cs[n - 1]) == Some(key) then ControlTriple(cs[n - 1]) else FileControls(m, cs, n - 1)[key]
  {
  }

  /** Under each key stands the triple of the last control filed under it,
      or what was there before when no control names it. */
  lemma {:induction false} FiledLast(m: map<string, seq<string>>, cs: seq<Control>, n: nat, key: string)
    requires n <= |cs| && key in m
    ensures key in FileControls(m, cs, n)
    ensures NoneFiled(cs, n, key) ==> FileControls(m, cs, n)[key] == m[key]
    ensures forall j: nat :: LastFiled(cs, n, key, j) ==> FileControls(m, cs, n)[key] == ControlTriple(cs[j])
  {
    if n > 0 {
      FiledLast(m, cs, n - 1, key);
      FiledStep(m, cs, n, key);
      if ControlKey(cs[n - 1]) == Some(key) {
        FiledHere(cs, n, key, FileControls(m, cs, n)[key]);
      } else {
        FiledEarlier(cs, n, key, m[key], FileControls(m, cs, n - 1)[key]);
      }
    }
  }

  /** When the `n`-th control is filed under `key`, it is the last one filed
      there, and its triple stands under the key. */
  lemma FiledHere(cs: seq<Control>, n: nat, key: string, cur: seq<string>)
    requires 0 < n <= |cs| && ControlKey(cs[n - 1]) == Some(key) && cur == ControlTriple(cs[n - 1])
    ensures !NoneFiled(cs, n, key)
    ensures forall j: nat :: LastFiled(cs, n, key, j) ==> cur == ControlTriple(cs[j])
  {
    forall j: nat | LastFiled(cs, n, key, j)
      ensures j == n - 1
    {
    }
  }

  /** When the `n`-th control is not filed under `key`, the entry under the
      key is the one before, and the last control filed there comes earlier. */
  lemma FiledEarlier(cs: seq<Control>, n: nat, key: string, before: seq<string>, prev: seq<string>)
    requires 0 < n <= |cs| && ControlKey(cs[n - 1]) != Some(key)
    requires NoneFiled(cs, n - 1, key) ==> prev == before
    requires forall j: nat :: LastFiled(cs, n - 1, key, j) ==> prev == ControlTriple(cs[j])
    ensures NoneFiled(cs, n, key) ==> prev == before
    ensures forall j: nat :: LastFiled(cs, n, key, j) ==> prev == ControlTriple(cs[j])
  {
    forall j: nat | LastFiled(cs, n, key, j)
      ensures LastFiled(cs, n - 1, key, j)
    {
    }
  }

  /** Filing the first `n` controls of a longer list is filing them alone. */
  lemma {:induction false} FiledPrefix(m: map<string, seq<string>>, cs: seq<Control>, more: seq<Control>, n: nat)
    requires n <= |cs|
    ensures FileControls(m, cs + more, n) == FileControls(m, cs, n)
  {
    if n > 0 {
      FiledPrefix(m, cs, more, n - 1);
      assert (cs + more)[n - 1] == cs[n - 1];
    }
  }

  /** The keys of the map of a route are its controls. */
  lemma InitialKeys(route: string)
    ensures forall key :: key in InitialMap(ControlesFor(route), 7) <==> key in ControlesFor(route)
  {
    RouteTables(route);
    var cs := ControlesFor(route);
    forall key
      ensures key in InitialMap(cs, 7) <==> key in cs
    {
      if key in cs {
        var k :| 0 <= k < 7 && cs[k] == key;
        assert key == Upper(cs[k]);
      }
    }
  }

  /** Each row is the dispatch's device, start and registration times, one
      triple per control of the route in header order, then the driver. */
  lemma RowShape(route: string, item: Despacho)
    ensures var row := RowFor(route, item);
            && row[..3] == [Text(item.deviceid), Text(item.horaInicio), Text(item.horaRegistro)]
            && row[10] == Text(item.nombreConductor)
            && forall k :: 0 <= k < 7 ==>
                 ControlesFor(route)[k] in ControlMapFor(route, item)
                 && row[3 + k] == Parts(ControlMapFor(route, item)[ControlesFor(route)[k]])
  {
    var row := RowFor(route, item);
    RowSplit(route, item);
    forall k | 0 <= k < 7
      ensures ControlesFor(route)[k] in ControlMapFor(route, item)
              && row[3 + k] == Parts(ControlMapFor(route, item)[ControlesFor(route)[k]])
    {
      RowTriple(route, item, k);
    }
  }

  lemma RowSplit(route: string, item: Despacho)
    ensures var row := RowFor(route, item);
            && row[..3] == [Text(item.deviceid), Text(item.horaInicio), Text(item.horaRegistro)]
            && row[10] == Text(item.nombreConductor)
            && row[3..10] == ControlValues(HeadersFor(route), ControlMapFor(route, item), 12)
  {
    RouteTables(route);
    var headers := HeadersFor(route);
    var m := ControlMapFor(route, item);
    ControlValuesInOrder(headers, m, 12);
    var base := [Text(item.deviceid), Text(item.horaInicio), Text(item.horaRegistro)];
    SplitOfPieces(RowFor(route, item), base, ControlValues(headers, m, 12), Text(item.nombreConductor));
  }

  /** A row of three, then seven, then one cell splits back into those pieces. */
  lemma SplitOfPieces(row: Row, base: Row, values: Row, last: Cell)
    requires |base| == 3 && |values| == 7 && row == base + values + [last]
    ensures row[..3] == base && row[10] == last && row[3..10] == values
  {
  }

  lemma RowTriple(route: string, item: Despacho, k: nat)
    requires k < 7
    ensures ControlesFor(route)[k] in ControlMapFor(route, item)
    ensures RowFor(route, item)[3 + k] == Parts(ControlMapFor(route, item)[ControlesFor(route)[k]])
  {
    RouteTables(route);
    InitialKeys(route);
    var headers := HeadersFor(route);
    var m := ControlMapFor(route, item);
    FiledKeys(InitialMap(ControlesFor(route), 7), item.controles, |item.controles|);
    ControlValuesInOrder(headers, m, 12);
    RowSplit(route, item);
    assert headers[3 + k] == headers[3..10][k];
    assert RowFor(route, item)[3 + k] == RowFor(route, item)[3..10][k];
  }

  /** The triple of a route's control is that of the last control of the
      dispatch filed under its name, and blank when none is. */
  lemma RowControls(route: string, item: Despacho, k: nat)
    requires k < 7
    ensures NoneFiled(item.controles, |item.controles|, ControlesFor(route)[k]) ==> RowFor(route, item)[3 + k] == Parts(Blank)
    ensures forall j: nat :: LastFiled(item.controles, |item.controles|, ControlesFor(route)[k], j) ==>
              RowFor(route, item)[3 + k] == Parts(ControlTriple(item.controles[j]))
  {
    RowShape(route, item);
    RouteTables(route);
    InitialKeys(route);
    var m0 := InitialMap(ControlesFor(route), 7);
    var name := ControlesFor(route)[k];
    FiledLast(m0, item.controles, |item.controles|, name);
    assert m0[name] == Blank;
  }

  /** A control whose name is not one of the route's changes nothing in the row. */
  lemma UnlistedControlIgnored(route: string, item: Despacho, c: Control)
    requires ControlKey(c).None? || ControlKey(c).value !in ControlesFor(route)
    ensures RowFor(route, item.(controles := item.controles + [c])) == RowFor(route, item)
  {
    RouteTables(route);
    InitialKeys(route);
    var m0 := InitialMap(ControlesFor(route), 7);
    var cs := item.controles;
    FiledPrefix(m0, cs, [c], |cs|);
    FiledKeys(m0, cs, |cs|);
    assert (cs + [c])[|cs|] == c;
    assert ControlMapFor(route, item.(controles := cs + [c])) == ControlMapFor(route, item);
  }

  /** The rows of the table: the dispatches by `codasig`, highest first. */
  function Rows(route: string, data: seq<Despacho>): (rows: seq<Row>)
    ensures |rows| == |data|
  {
    var sorted := SortByCodasig(data);
    seq(|sorted|, i requires 0 <= i < |sorted| => RowFor(route, sorted[i]))
  }

  /** `result.data.map(...)` after the sort: one row per dispatch. */
  method BuildRows(route: string, data: seq<Despacho>) returns (rows: seq<Row>)
    ensures rows == Rows(route, data)
  {
    var sorted := SortByCodasig(data);
    rows := [];
    for i := 0 to |sorted|
      invariant |rows| == i
      invariant forall j :: 0 <= j < i ==> rows[j] == RowFor(route, sorted[j])
    {
      var row := BuildRow(route, sorted[i]);
      rows := rows + [row];
    }
  }

  // ---------------------------------------------------------------- the sort by codasig

  /** Inserts a dispatch after every dispatch whose `codasig` is not below its own. */
  function InsertByCodasig(x: Despacho, s: seq<Despacho>): (r: seq<Despacho>)
    ensures |r| == |s| + 1
    ensures multiset(r) == multiset(s) + multiset{x}
  {
    if |s| == 0 then [x]
    else if s[0].codasig >= x.codasig then
      assert s == [s[0]] + s[1..];
      [s[0]] + InsertByCodasig(x, s[1..])
    else [x] + s
  }

  /** The stable sort `sort((a, b) => b.codasig - a.codasig)`, by insertion. */
  function SortByCodasig(s: seq<Despacho>): (r: seq<Despacho>)
    ensures |r| == |s|
    ensures multiset(r) == multiset(s)
  {
    if |s| == 0 then []
    else
      assert s == s[..|s| - 1] + [s[|s| - 1]];
      InsertByCodasig(s[|s| - 1], SortByCodasig(s[..|s| - 1]))
  }

  predicate Descending(s: seq<Despacho>) {
    forall i, j :: 0 <= i < j < |s| ==> s[i].codasig >= s[j].codasig
  }

  predicate AtMost(s: seq<Despacho>, bound: int) {
    forall i :: 0 <= i < |s| ==> s[i].codasig <= bound
  }

  /** The dispatches of `s` with a given `codasig`, in order. */
  function WithCodasig(s: seq<Despacho>, codasig: int): seq<Despacho> {
    if |s| == 0 then []
    else (if s[0].codasig == codasig then [s[0]] else []) + WithCodasig(s[1..], codasig)
  }

  lemma {:induction false} WithCodasigAppend(a: seq<Despacho>, b: seq<Despacho>, codasig: int)
    ensures WithCodasig(a + b, codasig) == WithCodasig(a, codasig) + WithCodasig(b, codasig)
  {
    if |a| > 0 {
      WithCodasigAppend(a[1..], b, codasig);
      assert (a + b)[1..] == a[1..] + b;
    } else {
      assert a + b == b;
    }
  }

  lemma {:induction false} WithCodasigNone(s: seq<Despacho>, codasig: int)
    requires AtMost(s, codasig - 1)
    ensures WithCodasig(s, codasig) == []
  {
    if |s| > 0 {
      WithCodasigNone(s[1..], codasig);
    }
  }

  lemma {:induction false} InsertBounded(x: Despacho, s: seq<Despacho>, bound: int)
    requires AtMost(s, bound) && x.codasig <= bound
    ensures AtMost(InsertByCodasig(x, s), bound)
  {
    if |s| > 0 && s[0].codasig >= x.codasig {
      InsertBounded(x, s[1..], bound);
    }
  }

  lemma {:induction false} InsertDescending(x: Despacho, s: seq<Despacho>)
    requires Descending(s)
    ensures Descending(InsertByCodasig(x, s))
  {
    if |s| > 0 {
      var r := InsertByCodasig(x, s);
      if s[0].codasig >= x.codasig {
        var rest := InsertByCodasig(x, s[1..]);
        DescendingTail(s);
        InsertDescending(x, s[1..]);
        HeadBoundsTail(s);
        InsertBounded(x, s[1..], s[0].codasig);
        InsertAfterHead(x, s, r, rest);
        ConsDescending(s[0], rest, r);
      } else {
        InsertBeforeHead(x, s, r);
        HeadBoundsTail(s);
        assert AtMost(s, x.codasig) by {
          forall k | 0 <= k < |s|
            ensures s[k].codasig <= x.codasig
          {
            if k > 0 {
              assert s[k] == s[1..][k - 1];
            }
          }
        }
        ConsDescending(x, s, r);
      }
    }
  }

  /** A descending list stays below its head. */
  lemma HeadBoundsTail(s: seq<Despacho>)
    requires |s| > 0 && Descending(s)
    ensures AtMost(s[1..], s[0].codasig)
  {
    forall k | 0 <= k < |s[1..]|
      ensures s[1..][k].codasig <= s[0].codasig
    {
      assert s[1..][k] == s[k + 1];
    }
  }

  /** A dispatch in front of a descending list it bounds keeps the list descending. */
  lemma ConsDescending(y: Despacho, t: seq<Despacho>, r: seq<Despacho>)
    requires r == [y] + t && Descending(t) && AtMost(t, y.codasig)
    ensures Descending(r)
  {
    forall i, j | 0 <= i < j < |r|
      ensures r[i].codasig >= r[j].codasig
    {
      assert r[j] == t[j - 1];
      if i > 0 {
        assert r[i] == t[i - 1];
      }
    }
  }

  lemma {:induction false} InsertStable(x: Despacho, s: seq<Despacho>, codasig: int)
    requires Descending(s)
    ensures WithCodasig(InsertByCodasig(x, s), codasig)
            == WithCodasig(s, codasig) + (if x.codasig == codasig then [x] else [])
  {
    var r := InsertByCodasig(x, s);
    if |s| == 0 {
      assert r == [x] && r[1..] == [];
    } else if s[0].codasig >= x.codasig {
      var rest := InsertByCodasig(x, s[1..]);
      DescendingTail(s);
      InsertStable(x, s[1..], codasig);
      InsertAfterHead(x, s, r, rest);
      WithCodasigCons(s[0], rest, codasig, r);
      assert s == [s[0]] + s[1..];
      WithCodasigCons(s[0], s[1..], codasig, s);
      Regrouped(WithCodasig(r, codasig), WithCodasig(s, codasig), WithCodasig(rest, codasig), WithCodasig(s[1..], codasig),
                if s[0].codasig == codasig then [s[0]] else [], if x.codasig == codasig then [x] else []);
    } else {
      InsertBeforeHead(x, s, r);
      WithCodasigCons(x, s, codasig, r);
      if x.codasig == codasig {
        WithCodasigNone(s, codasig);
      }
    }
  }

  /** An insertion that passes the head keeps it in front. */
  lemma InsertAfterHead(x: Despacho, s: seq<Despacho>, r: seq<Despacho>, rest: seq<Despacho>)
    requires |s| > 0 && s[0].codasig >= x.codasig
    requires r == InsertByCodasig(x, s) && rest == InsertByCodasig(x, s[1..])
    ensures r == [s[0]] + rest
  {
  }

  /** An insertion that stops at the head puts the dispatch in front. */
  lemma InsertBeforeHead(x: Despacho, s: seq<Despacho>, r: seq<Despacho>)
    requires |s| > 0 && s[0].codasig < x.codasig && r == InsertByCodasig(x, s)
    ensures r == [x] + s
  {
  }

  /** The regrouping that closes the inductive step of `InsertStable`. */
  lemma Regrouped(whole: seq<Despacho>, before: seq<Despacho>, rest: seq<Despacho>, beforeRest: seq<Despacho>,
                  head: seq<Despacho>, tail: seq<Despacho>)
    requires whole == head + rest && before == head + beforeRest && rest == beforeRest + tail
    ensures whole == before + tail
  {
  }

  lemma DescendingTail(s: seq<Despacho>)
    requires |s| > 0 && Descending(s)
    ensures Descending(s[1..])
  {
    forall i, j | 0 <= i < j < |s[1..]|
      ensures s[1..][i].codasig >= s[1..][j].codasig
    {
      assert s[1..][i] == s[i + 1] && s[1..][j] == s[j + 1];
    }
  }

  lemma WithCodasigCons(y: Despacho, t: seq<Despacho>, codasig: int, r: seq<Despacho>)
    requires r == [y] + t
    ensures WithCodasig(r, codasig) == (if y.codasig == codasig then [y] else []) + WithCodasig(t, codasig)
  {
    assert r[0] == y && r[1..] == t;
  }

  lemma {:induction false} SortDescending(s: seq<Despacho>)
    ensures Descending(SortByCodasig(s))
  {
    if |s| > 0 {
      SortDescending(s[..|s| - 1]);
      InsertDescending(s[|s| - 1], SortByCodasig(s[..|s| - 1]));
    }
  }

  lemma {:induction false} SortStable(s: seq<Despacho>, codasig: int)
    ensures WithCodasig(SortByCodasig(s), codasig) == WithCodasig(s, codasig)
  {
    if |s| > 0 {
      var init := s[..|s| - 1];
      var last := s[|s| - 1];
      assert s == init + [last];
      var sortedInit := SortByCodasig(init);
      SortStable(init, codasig);
      SortDescending(init);
      InsertStable(last, sortedInit, codasig);
      assert SortByCodasig(s) == InsertByCodasig(last, sortedInit);
      WithCodasigAppend(init, [last], codasig);
      assert WithCodasig([last], codasig) == (if last.codasig == codasig then [last] else []) by {
        assert [last][1..] == [];
      }
    }
  }

  /** The sort orders by `codasig`, highest first, keeps every dispatch, and
      keeps dispatches with the same `codasig` in their original order. */
  lemma SortByCodasigIsStable(s: seq<Despacho>)
    ensures Descending(SortByCodasig(s))
    ensures multiset(SortByCodasig(s)) == multiset(s)
    ensures forall codasig :: WithCodasig(SortByCodasig(s), codasig) == WithCodasig(s, codasig)
  {
    SortDescending(s);
    forall codasig
      ensures WithCodasig(SortByCodasig(s), codasig) == WithCodasig(s, codasig)
    {
      SortStable(s, codasig);
    }
  }

  // ---------------------------------------------------------------- the row total

  /** The cells before the driver: `row.slice(0, row.length - 1)`. */
  function Visible(row: Row): Row {
    if |row| == 0 then [] else row[..|row| - 1]
  }

  /** The volado the table reads from a control cell: `(cell[2] || "0").trim()`. */
  function ScreenVolado(parts: seq<string>): string {
    Trim(if |parts| > 2 && parts[2] != "" then parts[2] else "0")
  }

  /** The volado the export reads from a control cell: `cell[2]?.trim() || "0"`. */
  function ExportVolado(parts: seq<string>): string {
    if |parts| > 2 && Trim(parts[2]) != "" then Trim(parts[2]) else "0"
  }

  /** What one volado adds to a total: nothing for "+0", its `parseInt`
      when that is a positive number, nothing otherwise. */
  function Contribution(raw: string): (n: nat)
    ensures n > 0 <==> raw != "+0" && ParseInt(raw).Some? && ParseInt(raw).value > 0
    ensures n > 0 ==> ParseInt(raw) == Some(n)
  {
    if raw == "+0" then 0
    else match ParseInt(raw)
      case None => 0
      case Some(v) => if v > 0 then v else 0
  }

  /** The `reduce` of the table over the first `n` visible cells. */
  function ScreenTotalUpTo(cells: Row, n: nat): nat
    requires n <= |cells|
  {
    if n == 0 then 0
    else
      ScreenTotalUpTo(cells, n - 1)
      + (if n - 1 in SubdividedColumns && cells[n - 1].Parts? then Contribution(ScreenVolado(cells[n - 1].parts)) else 0)
  }

  /** The total the table shows for a row. */
  function ScreenTotal(row: Row): nat {
    ScreenTotalUpTo(Visible(row), |Visible(row)|)
  }

  /** The total the export computes over the first `n` visible cells. */
  function ExportTotalUpTo(cells: Row, n: nat): nat
    requires n <= |cells|
  {
    if n == 0 then 0
    else
      ExportTotalUpTo(cells, n - 1)
      + (if n - 1 in SubdividedColumns && cells[n - 1].Parts? then Contribution(ExportVolado(cells[n - 1].parts)) else 0)
  }

  function ExportTotal(row: Row): nat {
    ExportTotalUpTo(Visible(row), |Visible(row)|)
  }

  /** `total > 0 ? "+" + total : total < 0 ? total : "+0"`. */
  function DisplayTotal(total: int): string {
    if total > 0 then "+" + IntText(total) else if total < 0 then IntText(total) else "+0"
  }

  /** A total is shown with a plus sign and reads back as itself. */
  lemma DisplayedTotal(total: nat)
    ensures DisplayTotal(total) == "+" + Digits(total)
    ensures ParseInt(DisplayTotal(total)) == Some(total)
  {
    assert Digits(0) == "0";
    ParseIntOfDigits("+", total);
  }

  lemma TrimOfZero()
    ensures Trim("0") == "0"
  {
    assert TrimStart("0") == "0";
    assert TrimEnd("0") == "0";
  }

  /** The table and the export read a volado cell differently (a cell of
      spaces is "" to one and "0" to the other) but it adds the same. */
  lemma ContributionsAgree(parts: seq<string>)
    ensures Contribution(ScreenVolado(parts)) == Contribution(ExportVolado(parts))
  {
    TrimOfZero();
    if |parts| > 2 && parts[2] != "" && Trim(parts[2]) == "" {
      assert ScreenVolado(parts) == "";
      assert TrimStart("") == "";
      assert ParseInt("").None?;
      ParseIntOfDigits("", 0);
      assert Digits(0) == "0";
    }
  }

  /** The table and the export give every row the same total. */
  lemma {:induction false} TotalsAgreeUpTo(cells: Row, n: nat)
    requires n <= |cells|
    ensures ScreenTotalUpTo(cells, n) == ExportTotalUpTo(cells, n)
  {
    if n > 0 {
      TotalsAgreeUpTo(cells, n - 1);
      if cells[n - 1].Parts? {
        ContributionsAgree(cells[n - 1].parts);
      }
    }
  }

  lemma TotalsAgree(row: Row)
    ensures ScreenTotal(row) == ExportTotal(row)
  {
    TotalsAgreeUpTo(Visible(row), |Visible(row)|);
  }

  /** The volado filed for a control is read back unchanged by the table and
      by the export. */
  lemma FiledVoladoReadBack(c: Control)
    ensures ScreenVolado(ControlTriple(c)) == NormaliseVolado(c.volado)
    ensures ExportVolado(ControlTriple(c)) == NormaliseVolado(c.volado)
  {
    var r := NormaliseVolado(c.volado);
    NormalisedIsInteger(c.volado);
    NoEdgeSpaces(r);
  }

  /** A signed integer in text has no space at either end, so trimming keeps it. */
  lemma NoEdgeSpaces(r: string)
    requires LeadingInteger(r) == Some(r)
    ensures r != "" && Trim(r) == r
  {
    LeadingIntegerShape(r);
    assert !IsSpace(r[0]);
    assert TrimStart(r) == r;
    assert IsDigit(r[|r| - 1]) by {
      if IsSign(r[0]) {
        assert r[|r| - 1] == r[1..][|r| - 2];
      }
    }
    assert TrimEnd(r) == r;
  }

  // ---------------------------------------------------------------- the search

  /** `subcell.toLowerCase().includes(searchText.toLowerCase())` and its string-cell twin. */
  predicate Mentions(text: string, query: string) {
    Contains(Lower(text), Lower(query))
  }

  /** Whether the cell at `index` matches: a control column by any of its
      texts, any other column when it is a text. */
  predicate CellMatches(cell: Cell, index: nat, query: string) {
    if index in SubdividedColumns then
      cell.Parts? && exists j :: 0 <= j < |cell.parts| && Mentions(cell.parts[j], query)
    else cell.Text? && Mentions(cell.text, query)
  }

  predicate RowMatches(row: Row, query: string) {
    exists i :: 0 <= i < |row| && CellMatches(row[i], i, query)
  }

  /** `filteredRows` over the first `n` rows. */
  function FilterUpTo(rows: seq<Row>, query: string, n: nat): (r: seq<Row>)
    requires n <= |rows|
    ensures |r| <= n
  {
    if n == 0 then []
    else FilterUpTo(rows, query, n - 1) + (if RowMatches(rows[n - 1], query) then [rows[n - 1]] else [])
  }

  function FilteredRows(rows: seq<Row>, query: string): (r: seq<Row>)
    ensures |r| <= |rows|
  {
    FilterUpTo(rows, query, |rows|)
  }

  /** The positions of the first `n` rows that match, in order. */
  function MatchingIndices(rows: seq<Row>, query: string, n: nat): (idx: seq<nat>)
    requires n <= |rows|
    ensures forall k :: 0 <= k < |idx| ==> idx[k] < n && RowMatches(rows[idx[k]], query)
    ensures forall a, b :: 0 <= a < b < |idx| ==> idx[a] < idx[b]
    ensures forall j :: 0 <= j < n && RowMatches(rows[j], query) ==> j in idx
  {
    if n == 0 then []
    else
      var prev := MatchingIndices(rows, query, n - 1);
      if RowMatches(rows[n - 1], query) then prev + [n - 1] else prev
  }

  /** The search keeps exactly the matching rows, in their order: the k-th
      row kept is the row at the k-th matching position. */
  lemma {:induction false} FilterInOrder(rows: seq<Row>, query: string, n: nat)
    requires n <= |rows|
    ensures |FilterUpTo(rows, query, n)| == |MatchingIndices(rows, query, n)|
    ensures forall k :: 0 <= k < |MatchingIndices(rows, query, n)| ==>
              FilterUpTo(rows, query, n)[k] == rows[MatchingIndices(rows, query, n)[k]]
  {
    if n > 0 {
      FilterInOrder(rows, query, n - 1);
    }
  }

  /** An empty search matches every row that has a text outside the control columns. */
  lemma EmptySearchMatches(row: Row, i: nat)
    requires i < |row| && i !in SubdividedColumns && row[i].Text?
    ensures RowMatches(row, "")
  {
    assert Lower("") == "";
    assert OccursAt(Lower(row[i].text), "", 0);
    assert CellMatches(row[i], i, "");
  }

  /** So an empty search keeps every row that starts with a text... */
  lemma {:induction false} EmptySearchKeeps(rows: seq<Row>, n: nat)
    requires n <= |rows|
    requires forall i :: 0 <= i < |rows| ==> |rows[i]| > 0 && rows[i][0].Text?
    ensures FilterUpTo(rows, "", n) == rows[..n]
  {
    if n > 0 {
      EmptySearchKeeps(rows, n - 1);
      EmptySearchMatches(rows[n - 1], 0);
      assert rows[..n] == rows[..n - 1] + [rows[n - 1]];
    }
  }

  /** ... as every row of the table does. */
  lemma EmptySearchKeepsRows(route: string, data: seq<Despacho>)
    ensures FilteredRows(Rows(route, data), "") == Rows(route, data)
  {
    var rows: seq<Row> := Rows(route, data);
    forall i | 0 <= i < |rows|
      ensures |rows[i]| > 0 && rows[i][0].Text?
    {
      RowStartsWithDevice(route, SortByCodasig(data)[i]);
    }
    EmptySearchKeeps(rows, |rows|);
    assert rows[..|rows|] == rows;
  }

  lemma RowStartsWithDevice(route: string, item: Despacho)
    ensures RowFor(route, item)[0] == Text(item.deviceid)
  {
    RowSplit(route, item);
    assert RowFor(route, item)[..3][0] == RowFor(route, item)[0];
  }

  // ---------------------------------------------------------------- hasControlTimes

  /** Whether the text in a control cell at `j` is there once trimmed. */
  predicate Filled(parts: seq<string>, j: nat) {
    j < |parts| && Trim(parts[j]) != ""
  }

  /** Whether some control cell before the driver holds an estimated or an arrival time. */
  predicate HasControlTimes(row: Row) {
    var visible := Visible(row);
    exists i :: 0 <= i < |visible| && i in SubdividedColumns && visible[i].Parts?
                && (Filled(visible[i].parts, 0) || Filled(visible[i].parts, 1))
  }

  /** The triple filed under the route's `k`-th control. */
  function TripleOf(route: string, item: Despacho, k: nat): seq<string>
    requires k < 7
  {
    var m := ControlMapFor(route, item);
    var name := ControlesFor(route)[k];
    if name in m then m[name] else []
  }

  /** The cell of the row for the route's `k`-th control holds its triple. */
  lemma RowCell(route: string, item: Despacho, k: nat)
    requires k < 7
    ensures RowFor(route, item)[3 + k] == Parts(TripleOf(route, item, k))
  {
    RowTriple(route, item, k);
  }

  /** A row of the table has times exactly when one of the route's controls
      was filed with an estimated or an arrival time. */
  lemma RowTimes(route: string, item: Despacho)
    ensures HasControlTimes(RowFor(route, item)) <==>
            exists k :: 0 <= k < 7 && (Filled(TripleOf(route, item, k), 0) || Filled(TripleOf(route, item, k), 1))
  {
    var row := RowFor(route, item);
    var triples := seq(7, k requires 0 <= k < 7 => TripleOf(route, item, k));
    forall k | 0 <= k < 7
      ensures row[3 + k] == Parts(triples[k])
    {
      RowCell(route, item, k);
    }
    TimesOfShapedRow(row, triples);
    assert forall k :: 0 <= k < 7 ==> triples[k] == TripleOf(route, item, k);
  }

  lemma TimesOfShapedRow(row: Row, triples: seq<seq<string>>)
    requires |row| == 11 && |triples| == 7
    requires forall k :: 0 <= k < 7 ==> row[3 + k] == Parts(triples[k])
    ensures HasControlTimes(row) <==> exists k :: 0 <= k < 7 && (Filled(triples[k], 0) || Filled(triples[k], 1))
  {
    var visible := Visible(row);
    assert |visible| == 10;
    assert forall i :: i in SubdividedColumns <==> 3 <= i < 10;
    if HasControlTimes(row) {
      var i :| 0 <= i < |visible| && i in SubdividedColumns && visible[i].Parts?
               && (Filled(visible[i].parts, 0) || Filled(visible[i].parts, 1));
      var k := i - 3;
      assert visible[i] == row[3 + k] == Parts(triples[k]);
      assert 0 <= k < 7 && (Filled(triples[k], 0) || Filled(triples[k], 1));
    }
    if exists k :: 0 <= k < 7 && (Filled(triples[k], 0) || Filled(triples[k], 1)) {
      var k :| 0 <= k < 7 && (Filled(triples[k], 0) || Filled(triples[k], 1));
      var i := 3 + k;
      assert i in SubdividedColumns;
      assert visible[i] == row[i] == Parts(triples[k]);
      assert 0 <= i < |visible| && i in SubdividedColumns && visible[i].Parts?
             && (Filled(visible[i].parts, 0) || Filled(visible[i].parts, 1));
      assert HasControlTimes(row);
    }
  }

  /** No control of the dispatch is filed under one of the route's names. */
  predicate NoneFiledAtAll(route: string, item: Despacho) {
    forall k :: 0 <= k < 7 ==> NoneFiled(item.controles, |item.controles|, ControlesFor(route)[k])
  }

  /** A dispatch none of whose controls is one of the route's is shown greyed out. */
  lemma NoControlsNoTimes(route: string, item: Despacho)
    requires NoneFiledAtAll(route, item)
    ensures !HasControlTimes(RowFor(route, item))
  {
    forall k | 0 <= k < 7
      ensures !Filled(TripleOf(route, item, k), 0) && !Filled(TripleOf(route, item, k), 1)
    {
      RowControls(route, item, k);
      RowCell(route, item, k);
      assert TripleOf(route, item, k) == Blank;
      assert Trim("") == "";
    }
    RowTimes(route, item);
  }

  // ---------------------------------------------------------------- exportExcel

  /** Blocks of cells laid side by side. */
  function Flatten(blocks: seq<seq<string>>): seq<string> {
    if |blocks| == 0 then [] else Flatten(blocks[..|blocks| - 1]) + blocks[|blocks| - 1]
  }

  /** Where block `i` starts. */
  function Offset(blocks: seq<seq<string>>, i: nat): nat
    requires i <= |blocks|
  {
    |Flatten(blocks[..i])|
  }

  lemma {:induction false} FlattenPrefix(blocks: seq<seq<string>>, i: nat)
    requires i <= |blocks|
    ensures Offset(blocks, i) <= |Flatten(blocks)|
    ensures Flatten(blocks)[..Offset(blocks, i)] == Flatten(blocks[..i])
  {
    if i == |blocks| {
      assert blocks[..i] == blocks;
    } else {
      var init := blocks[..|blocks| - 1];
      FlattenPrefix(init, i);
      assert init[..i] == blocks[..i];
      assert Flatten(blocks) == Flatten(init) + blocks[|blocks| - 1];
    }
  }

  /** Block `i` stands at its offset, and the next block starts right after it. */
  lemma FlattenAt(blocks: seq<seq<string>>, i: nat)
    requires i < |blocks|
    ensures Offset(blocks, i + 1) == Offset(blocks, i) + |blocks[i]| <= |Flatten(blocks)|
    ensures Flatten(blocks)[Offset(blocks, i)..Offset(blocks, i + 1)] == blocks[i]
  {
    FlattenPrefix(blocks, i + 1);
    assert blocks[..i + 1][..i] == blocks[..i];
    assert Flatten(blocks[..i + 1]) == Flatten(blocks[..i]) + blocks[i];
  }

  /** Blocks of the same widths start at the same places. */
  lemma {:induction false} SameOffsets(a: seq<seq<string>>, b: seq<seq<string>>, i: nat)
    requires |a| == |b| && i <= |a|
    requires forall j :: 0 <= j < |a| ==> |a[j]| == |b[j]|
    ensures Offset(a, i) == Offset(b, i)
  {
    if i > 0 {
      SameOffsets(a, b, i - 1);
      FlattenAt(a, i - 1);
      FlattenAt(b, i - 1);
    }
  }

  /** The export's headers for the header at column `i`. */
  function HeaderBlock(header: string, i: nat): seq<string> {
    if i in SubdividedColumns then [header + " - Estimada", header + " - Llegada", header + " - Volado"] else [header]
  }

  function HeaderBlocks(headers: seq<string>, n: nat): (blocks: seq<seq<string>>)
    requires n <= |headers|
    ensures |blocks| == n
  {
    seq(n, i requires 0 <= i < n => HeaderBlock(headers[i], i))
  }

  /** The header row `exportExcel` writes: every header expanded, then "Total" once more. */
  function ExcelHeaderAsWritten(headers: seq<string>): seq<string> {
    Flatten(HeaderBlocks(headers, |headers|)) + ["Total"]
  }

  /** The header row with the headers' own "Total" as its only total column. */
  function ExcelHeader(headers: seq<string>): seq<string> {
    Flatten(HeaderBlocks(headers, |headers|))
  }

  /** The `forEach` of `exportExcel` over the active headers. */
  method ExportHeader(headers: seq<string>) returns (headerRow: seq<string>)
    ensures headerRow == ExcelHeaderAsWritten(headers)
  {
    headerRow := [];
    for index := 0 to |headers|
      invariant headerRow == Flatten(HeaderBlocks(headers, index))
    {
      var header := headers[index];
      if index in SubdividedColumns {
        headerRow := headerRow + [header + " - Estimada"];
        headerRow := headerRow + [header + " - Llegada"];
        headerRow := headerRow + [header + " - Volado"];
      } else {
        headerRow := headerRow + [header];
      }
      assert HeaderBlocks(headers, index + 1)[..index] == HeaderBlocks(headers, index);
    }
    headerRow := headerRow + ["Total"];
  }

  /** `cell[j] || ""`. */
  function Slot(parts: seq<string>, j: nat): string {
    if j < |parts| then parts[j] else ""
  }

  /** The export's cells for the cell at column `i`. */
  function CellBlock(cell: Cell, i: nat): seq<string> {
    if i in SubdividedColumns && cell.Parts? then [Slot(cell.parts, 0), Slot(cell.parts, 1), ExportVolado(cell.parts)]
    else if cell.Text? then [cell.text]
    else [""]
  }

  function CellBlocks(cells: Row, n: nat): (blocks: seq<seq<string>>)
    requires n <= |cells|
    ensures |blocks| == n
  {
    seq(n, i requires 0 <= i < n => CellBlock(cells[i], i))
  }

  /** The driver's cell, or "" when the last cell is not a text. */
  function ConductorText(row: Row): string {
    if |row| > 0 && row[|row| - 1].Text? then row[|row| - 1].text else ""
  }

  /** The data row `exportExcel` writes for a row of the table. */
  function ExcelRow(row: Row): seq<string> {
    var visible := Visible(row);
    Flatten(CellBlocks(visible, |visible|)) + [ConductorText(row), DisplayTotal(ExportTotal(row))]
  }

  /** The body of the `filteredRows.forEach` of `exportExcel`: the cells and the running total. */
  method ExportRow(row: Row) returns (rowData: seq<string>)
    ensures rowData == ExcelRow(row)
  {
    var visibleData := Visible(row);
    rowData := [];
    var total: nat := 0;
    for i := 0 to |visibleData|
      invariant rowData == Flatten(CellBlocks(visibleData, i))
      invariant total == ExportTotalUpTo(visibleData, i)
    {
      var cell := visibleData[i];
      ghost var before := rowData;
      if i in SubdividedColumns && cell.Parts? {
        var voladoRaw := if |cell.parts| > 2 && Trim(cell.parts[2]) != "" then Trim(cell.parts[2]) else "0";
        if voladoRaw != "+0" {
          var volado := ParseInt(voladoRaw);
          if volado.Some? && volado.value > 0 {
            total := total + volado.value;
          }
        }
        rowData := rowData + [Slot(cell.parts, 0)];
        rowData := rowData + [Slot(cell.parts, 1)];
        rowData := rowData + [voladoRaw];
        assert voladoRaw == ExportVolado(cell.parts);
        assert total == ExportTotalUpTo(visibleData, i) + Contribution(voladoRaw);
        assert rowData == before + [Slot(cell.parts, 0), Slot(cell.parts, 1), voladoRaw];
      } else if cell.Text? {
        rowData := rowData + [cell.text];
      } else {
        rowData := rowData + [""];
      }
      FlattenNextBlock(visibleData, i);
    }
    if |row| > 0 && row[|row| - 1].Text? {
      rowData := rowData + [row[|row| - 1].text];
    } else {
      rowData := rowData + [""];
    }
    rowData := rowData + [DisplayTotal(total)];
  }

  lemma FlattenNextBlock(cells: Row, i: nat)
    requires i < |cells|
    ensures Flatten(CellBlocks(cells, i + 1)) == Flatten(CellBlocks(cells, i)) + CellBlock(cells[i], i)
  {
    assert CellBlocks(cells, i + 1)[..i] == CellBlocks(cells, i);
  }

  /** What `exportExcel` hands to the sheet: the header row, then one row per filtered row. */
  method ExportSheet(headers: seq<string>, rows: seq<Row>) returns (sheet: seq<seq<string>>)
    ensures |sheet| == |rows| + 1
    ensures sheet[0] == ExcelHeaderAsWritten(headers)
    ensures forall k :: 0 <= k < |rows| ==> sheet[k + 1] == ExcelRow(rows[k])
  {
    var headerRow := ExportHeader(headers);
    var excelData: seq<seq<string>> := [];
    for k := 0 to |rows|
      invariant |excelData| == k
      invariant forall j :: 0 <= j < k ==> excelData[j] == ExcelRow(rows[j])
    {
      var rowData := ExportRow(rows[k]);
      excelData := excelData + [rowData];
    }
    sheet := [headerRow] + excelData;
  }

  /** The visible cells of a row of the table: three texts, then seven control triples. */
  predicate TableShaped(visible: Row) {
    && |visible| == 10
    && (forall i :: 0 <= i < 3 ==> visible[i].Text?)
    && (forall i :: 3 <= i < 10 ==> visible[i].Parts?)
  }

  lemma VisibleShape(route: string, item: Despacho)
    ensures TableShaped(Visible(RowFor(route, item)))
  {
    RouteTables(route);
    RowSplit(route, item);
    ControlCells(HeadersFor(route), ControlMapFor(route, item), 12);
    ShapedVisible(RowFor(route, item), item.deviceid, item.horaInicio, item.horaRegistro,
                  ControlValues(HeadersFor(route), ControlMapFor(route, item), 12));
  }

  /** Three texts, seven control cells and one more cell make a table-shaped visible part. */
  lemma ShapedVisible(row: Row, a: string, b: string, c: string, values: Row)
    requires |row| == 11 && row[..3] == [Text(a), Text(b), Text(c)] && row[3..10] == values
    requires forall k :: 0 <= k < |values| ==> values[k].Parts?
    ensures TableShaped(Visible(row))
  {
    var visible := Visible(row);
    assert visible == row[..10];
    forall i | 0 <= i < 10
      ensures (i < 3 ==> visible[i].Text?) && (3 <= i ==> visible[i].Parts?)
    {
      if i < 3 {
        assert visible[i] == row[..3][i];
      } else {
        assert visible[i] == values[i - 3];
      }
    }
  }

  /** Over a table-shaped row, the header blocks of any twelve headers and
      the cell blocks have the same widths. */
  lemma BlockWidths(headers: seq<string>, visible: Row)
    requires |headers| == 12 && TableShaped(visible)
    ensures forall i :: 0 <= i < 10 ==> |HeaderBlocks(headers, 10)[i]| == |CellBlocks(visible, 10)[i]|
  {
    assert forall i :: i in SubdividedColumns <==> 3 <= i < 10;
  }

  /** Block `i` of `a`, laid out with something after it, stands where block
      `i` of `b` does in `b`'s layout. */
  predicate Aligned(a: seq<seq<string>>, b: seq<seq<string>>, text: seq<string>, i: nat)
    requires |a| == |b| && i < |a|
  {
    Offset(b, i) <= Offset(b, i + 1) <= |text| && text[Offset(b, i)..Offset(b, i + 1)] == a[i]
  }

  lemma AlignedLayouts(a: seq<seq<string>>, b: seq<seq<string>>, moreA: seq<string>, moreB: seq<string>)
    requires |a| == |b|
    requires forall j :: 0 <= j < |a| ==> |a[j]| == |b[j]|
    ensures |Flatten(a) + moreA| == |Flatten(b)| + |moreA|
    ensures forall i :: 0 <= i < |a| ==> Aligned(a, b, Flatten(a) + moreA, i) && Aligned(b, b, Flatten(b) + moreB, i)
  {
    SameOffsets(a, b, |a|);
    assert a[..|a|] == a && b[..|b|] == b;
    forall i | 0 <= i < |a|
      ensures Aligned(a, b, Flatten(a) + moreA, i) && Aligned(b, b, Flatten(b) + moreB, i)
    {
      AlignedBlock(a, b, moreA, i);
      AlignedBlock(b, b, moreB, i);
    }
  }

  /** One block of `a`'s layout, with anything after it, stands where that block of `b` does. */
  lemma AlignedBlock(a: seq<seq<string>>, b: seq<seq<string>>, more: seq<string>, i: nat)
    requires |a| == |b| && i < |a|
    requires forall j :: 0 <= j < |a| ==> |a[j]| == |b[j]|
    ensures Aligned(a, b, Flatten(a) + more, i)
  {
    SameOffsets(a, b, i);
    SameOffsets(a, b, i + 1);
    FlattenAt(a, i);
    var text := Flatten(a) + more;
    assert text[Offset(a, i)..Offset(a, i + 1)] == Flatten(a)[Offset(a, i)..Offset(a, i + 1)];
  }

  /** Each column of a row of the table lands under its own headers in the
      export: the k-th control's estimated, arrival and volado texts under
      "<control> - Estimada", "- Llegada" and "- Volado", the driver under
      "Conductor" and the total under "Total"; the header row and every data
      row have the same width. */
  lemma ExcelColumnsAgree(route: string, item: Despacho)
    ensures var header := ExcelHeader(HeadersFor(route));
            var data := ExcelRow(RowFor(route, item));
            && |header| == |data|
            && header[|header| - 2] == "Conductor" && data[|data| - 2] == item.nombreConductor
            && header[|header| - 1] == "Total" && data[|data| - 1] == DisplayTotal(ExportTotal(RowFor(route, item)))
    ensures var cb := CellBlocks(Visible(RowFor(route, item)), 10);
            forall i :: 0 <= i < 10 ==>
              && Aligned(HeaderBlocks(HeadersFor(route), 10), cb, ExcelHeader(HeadersFor(route)), i)
              && Aligned(cb, cb, ExcelRow(RowFor(route, item)), i)
  {
    var headers := HeadersFor(route);
    var row := RowFor(route, item);
    var visible := Visible(row);
    VisibleShape(route, item);
    HeaderLayout(route);
    BlockWidths(headers, visible);
    RowLayout(route, item);
    ColumnsOfLayouts(HeaderBlocks(headers, 10), CellBlocks(visible, 10), ExcelHeader(headers), ExcelRow(row),
                     item.nombreConductor, DisplayTotal(ExportTotal(row)));
  }

  /** Two layouts of blocks of the same widths, each followed by two more
      cells, line up block by block and end in those cells. */
  lemma ColumnsOfLayouts(hb: seq<seq<string>>, cb: seq<seq<string>>, header: seq<string>, data: seq<string>,
                         conductor: string, total: string)
    requires |hb| == |cb| == 10 && forall i :: 0 <= i < 10 ==> |hb[i]| == |cb[i]|
    requires header == Flatten(hb) + ["Conductor", "Total"]
    requires data == Flatten(cb) + [conductor, total]
    ensures && |header| == |data|
            && header[|header| - 2] == "Conductor" && data[|data| - 2] == conductor
            && header[|header| - 1] == "Total" && data[|data| - 1] == total
    ensures forall i :: 0 <= i < 10 ==> Aligned(hb, cb, header, i) && Aligned(cb, cb, data, i)
  {
    AlignedLayouts(hb, cb, ["Conductor", "Total"], [conductor, total]);
  }

  lemma HeaderLayout(route: string)
    ensures |HeadersFor(route)| == 12
    ensures ExcelHeader(HeadersFor(route)) == Flatten(HeaderBlocks(HeadersFor(route), 10)) + ["Conductor", "Total"]
  {
    var headers := HeadersFor(route);
    RouteTables(route);
    var hb := HeaderBlocks(headers, 12);
    var hb10 := HeaderBlocks(headers, 10);
    assert hb[..11][..10] == hb10;
    assert hb[10] == ["Conductor"] && hb[11] == ["Total"];
    assert Flatten(hb[..11]) == Flatten(hb10) + ["Conductor"];
    assert Flatten(hb) == Flatten(hb[..11]) + ["Total"];
  }

  lemma RowLayout(route: string, item: Despacho)
    ensures |Visible(RowFor(route, item))| == 10
    ensures ExcelRow(RowFor(route, item))
            == Flatten(CellBlocks(Visible(RowFor(route, item)), 10)) + [item.nombreConductor, DisplayTotal(ExportTotal(RowFor(route, item)))]
  {
    RowSplit(route, item);
  }

  /** As written the header row is one column wider than every data row: it
      ends in "Total" twice, and the second has no data under it. */
  lemma ExcelHeaderTooWide(route: string, item: Despacho)
    ensures var header := ExcelHeaderAsWritten(HeadersFor(route));
            && |header| == |ExcelRow(RowFor(route, item))| + 1
            && header[|header| - 2] == "Total" && header[|header| - 1] == "Total"
  {
    ExcelColumnsAgree(route, item);
  }

  // ---------------------------------------------------------------- volados of the offline analysis

  predicate NoUpperCase(s: string) {
    forall i :: 0 <= i < |s| ==> !('A' <= s[i] <= 'Z')
  }

  lemma LowerOfLower(s: string)
    requires NoUpperCase(s)
    ensures Lower(s) == s
  {
  }

  lemma NoUpperJoin(a: string, b: string)
    requires NoUpperCase(a) && NoUpperCase(b)
    ensures NoUpperCase(a + b)
  {
    forall i | 0 <= i < |a + b|
      ensures !('A' <= (a + b)[i] <= 'Z')
    {
      if i >= |a| { assert (a + b)[i] == b[i - |a|]; }
    }
  }

  lemma NoUpperInDigits(n: nat)
    ensures NoUpperCase(Digits(n))
  {
    assert AllDigits(Digits(n));
  }

  /** The offline texts are written without capitals. */
  lemma HmsTextHasNoCapitals(total: nat)
    ensures NoUpperCase(HmsText(total, OfflineGps.OfflineUnits))
  {
    var t := ToHms(total);
    NoUpperInDigits(t.hours);
    NoUpperInDigits(t.minutes);
    NoUpperInDigits(t.seconds);
  }

  /** A leading integer ends where the digits do. */
  lemma LeadingOfDigits(sign: string, n: nat, rest: string)
    requires sign == "" || sign == "-"
    requires |rest| > 0 && !IsDigit(rest[0])
    ensures LeadingInteger(sign + Digits(n) + rest) == Some(sign + Digits(n))
  {
    var s := sign + Digits(n) + rest;
    var k := |sign|;
    assert |s| > 0 && IsSign(s[0]) <==> sign == "-" by {
      if sign == "" { assert s[0] == Digits(n)[0] && IsDigit(Digits(n)[0]); }
    }
    assert s[k..] == Digits(n) + rest;
    DigitRunPrefix(Digits(n), rest);
    assert s[..k + |Digits(n)|] == sign + Digits(n);
  }

  /** A text that starts with a number's digits leads, after the sign, with that number. */
  lemma LeadingOfSplit(sign: string, body: string, n: nat, rest: string)
    requires sign == "" || sign == "-"
    requires body == Digits(n) + rest && |rest| > 0 && !IsDigit(rest[0])
    ensures LeadingInteger(sign + body) == Some(sign + Digits(n))
  {
    assert sign + body == sign + Digits(n) + rest;
    LeadingOfDigits(sign, n, rest);
  }

  lemma {:induction false} DigitRunPrefix(d: string, rest: string)
    requires AllDigits(d)
    requires |rest| > 0 && !IsDigit(rest[0])
    ensures DigitRun(d + rest) == |d|
  {
    if |d| > 0 {
      assert (d + rest)[1..] == d[1..] + rest;
      DigitRunPrefix(d[1..], rest);
    } else {
      assert d + rest == rest;
    }
  }

  /** A text with no space at either end is its own trim. */
  lemma TrimOfUnpadded(s: string)
    requires |s| > 0 && !IsSpace(s[0]) && !IsSpace(s[|s| - 1])
    ensures Trim(s) == s
  {
  }

  /** An offline volado is already trimmed and in lower case. */
  lemma OfflineTextIsPlain(raw: int)
    ensures var text := OfflineGps.DifferenceText(raw);
            text != "" && Trim(text) == text && Lower(text) == text
  {
    OfflineTextTrimmed(raw);
    OfflineTextLower(raw);
  }

  lemma OfflineTextTrimmed(raw: int)
    ensures OfflineGps.DifferenceText(raw) != "" && Trim(OfflineGps.DifferenceText(raw)) == OfflineGps.DifferenceText(raw)
  {
    OfflineGps.DifferenceTextFormat(raw);
    TrimOfVolado(OfflineGps.DifferenceText(raw));
  }

  /** A text that starts with a digit or a minus sign and ends in "seg" is its own trim. */
  lemma TrimOfVolado(text: string)
    requires |text| > 0 && (IsDigit(text[0]) || text[0] == '-') && EndsWith(text, "seg")
    ensures Trim(text) == text
  {
    assert text[|text| - 1] == text[|text| - 3..][2] == 'g';
    TrimOfUnpadded(text);
  }

  lemma OfflineTextLower(raw: int)
    ensures Lower(OfflineGps.DifferenceText(raw)) == OfflineGps.DifferenceText(raw)
  {
    var magnitude: nat := if raw < 0 then -raw else raw;
    var sign := if raw < 0 then "-" else "";
    var body := HmsText(magnitude, OfflineGps.OfflineUnits);
    var text := OfflineGps.DifferenceText(raw);
    assert text == sign + body;
    HmsTextHasNoCapitals(magnitude);
    NoUpperJoin(sign, body);
    LowerOfLower(text);
  }

  /** Under a minute the offline volado mentions no minutes and ends in "seg". */
  lemma OfflineSecondsOnly(raw: int)
    requires -60 < raw < 60
    ensures !Contains(OfflineGps.DifferenceText(raw), "m") && EndsWith(OfflineGps.DifferenceText(raw), "seg")
  {
    var magnitude: nat := if raw < 0 then -raw else raw;
    var sign := if raw < 0 then "-" else "";
    var text := OfflineGps.DifferenceText(raw);
    OfflineGps.HmsTextTokens(magnitude);
    OfflineGps.DifferenceTextFormat(raw);
    assert text == sign + Digits(magnitude) + "seg";
    NoCharInDigits(Digits(magnitude), 'm');
    assert 'm' !in text;
    NotContainsWithout(text, "m");
  }

  /** From a minute on, the offline volado mentions minutes and starts with
      the signed number of its first unit. */
  lemma OfflineFirstUnit(raw: int)
    requires raw <= -60 || raw >= 60
    ensures var magnitude: nat := if raw < 0 then -raw else raw;
            var sign := if raw < 0 then "-" else "";
            && Contains(OfflineGps.DifferenceText(raw), "m")
            && LeadingInteger(OfflineGps.DifferenceText(raw))
               == Some(sign + Digits(if magnitude < 3600 then magnitude / 60 else magnitude / 3600))
  {
    var magnitude: nat := if raw < 0 then -raw else raw;
    var sign := if raw < 0 then "-" else "";
    var text := OfflineGps.DifferenceText(raw);
    assert text == sign + HmsText(magnitude, OfflineGps.OfflineUnits);
    OfflineMentionsMinutes(raw);
    if magnitude < 3600 {
      LeadingOfMinutes(sign, magnitude);
    } else {
      LeadingOfHours(sign, magnitude);
    }
  }

  lemma OfflineMentionsMinutes(raw: int)
    requires raw <= -60 || raw >= 60
    ensures Contains(OfflineGps.DifferenceText(raw), "m")
  {
    var text := OfflineGps.DifferenceText(raw);
    OfflineGps.DifferenceTextFormat(raw);
    var i :| 0 <= i <= |text| && OccursAt(text, "min", i);
    assert text[i] == text[i..i + 3][0] == 'm';
    assert text[i..i + 1] == "m";
    ContainsAt(text, "m", i);
  }

  lemma LeadingOfMinutes(sign: string, magnitude: nat)
    requires sign == "" || sign == "-"
    requires 60 <= magnitude < 3600
    ensures LeadingInteger(sign + HmsText(magnitude, OfflineGps.OfflineUnits)) == Some(sign + Digits(magnitude / 60))
  {
    var t := ToHms(magnitude);
    assert t.hours == 0 && t.minutes == magnitude / 60 && t.minutes > 0;
    var rest := "min " + Token(t.seconds, "seg");
    assert HmsText(magnitude, OfflineGps.OfflineUnits) == Digits(t.minutes) + rest;
    LeadingOfSplit(sign, HmsText(magnitude, OfflineGps.OfflineUnits), t.minutes, rest);
  }

  lemma LeadingOfHours(sign: string, magnitude: nat)
    requires sign == "" || sign == "-"
    requires 3600 <= magnitude
    ensures LeadingInteger(sign + HmsText(magnitude, OfflineGps.OfflineUnits)) == Some(sign + Digits(magnitude / 3600))
  {
    var t := ToHms(magnitude);
    assert t.hours == magnitude / 3600 && t.hours > 0;
    var rest := "h " + Token(t.minutes, "min") + " " + Token(t.seconds, "seg");
    assert HmsText(magnitude, OfflineGps.OfflineUnits) == Digits(t.hours) + rest;
    LeadingOfSplit(sign, HmsText(magnitude, OfflineGps.OfflineUnits), t.hours, rest);
  }

  /** What the table shows for a volado written by the offline analysis:
      "+0" under a minute either way; otherwise the signed number of the
      text's first unit, so the minutes below an hour, and the hours (not
      the minutes) from an hour on. */
  lemma OfflineVoladoNormalised(raw: int)
    ensures var magnitude: nat := if raw < 0 then -raw else raw;
            var sign := if raw < 0 then "-" else "";
            NormaliseVolado(Some(OfflineGps.DifferenceText(raw)))
            == if magnitude < 60 then "+0"
               else if magnitude < 3600 then sign + Digits(magnitude / 60)
               else sign + Digits(magnitude / 3600)
  {
    OfflineTextIsPlain(raw);
    if -60 < raw < 60 {
      OfflineSecondsOnly(raw);
    } else {
      OfflineFirstUnit(raw);
    }
  }

  /** So an offline volado adds to the row total its minutes when it is late
      by a minute up to an hour, its hours when it is later, and nothing when
      it is early or on time to the minute. */
  lemma OfflineVoladoContribution(raw: int)
    ensures Contribution(NormaliseVolado(Some(OfflineGps.DifferenceText(raw))))
            == if raw >= 3600 then raw / 3600 else if raw >= 60 then raw / 60 else 0
  {
    OfflineVoladoNormalised(raw);
    var magnitude: nat := if raw < 0 then -raw else raw;
    var first := if magnitude < 3600 then magnitude / 60 else magnitude / 3600;
    if magnitude >= 60 {
      if raw < 0 {
        ParseIntOfDigits("-", first);
      } else {
        ParseIntOfDigits("", first);
        assert "" + Digits(first) == Digits(first);
      }
    }
  }
}
