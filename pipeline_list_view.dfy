/**
 * The table view of the pipeline (components/PipelineListView.tsx): its
 * configurable columns (saved order merged with the built-in and custom
 * ones, reordering, visibility, custom columns), row selection and the
 * edits applied to one or all selected rows, per-column filters and the
 * sort-toggle cycle.
 */
module PipelineListView {
  import opened Wrappers
  import opened Text
  import opened Lists
  import opened Records

  // ------------------------------------------------------- column config

  /** One column of the table, as stored in local storage. */
  datatype ColumnConfig = ColumnConfig(key: string, caption: string, visible: bool, locked: bool, isCustom: bool)

  /** The built-in columns: client (locked), stage, values, tag and status shown; contact details, assignee and creation date hidden. */
  function DefaultColumns(): (cs: seq<ColumnConfig>)
    ensures |cs| == 13
    ensures cs[0].key == "client_name" && cs[0].locked
    ensures forall i :: 0 <= i < |cs| ==> !cs[i].isCustom && (i > 0 ==> !cs[i].locked)
    ensures forall i :: 0 <= i < |cs| ==> (cs[i].visible <==> i < 6)
  {
    [ ColumnConfig("client_name", "Cliente", true, true, false),
      ColumnConfig("pipeline_id", "Fase", true, false, false),
      ColumnConfig("value", "Valor Estimado", true, false, false),
      ColumnConfig("recovered_value", "Valor Recuperado", true, false, false),
      ColumnConfig("tag", "Etiqueta", true, false, false),
      ColumnConfig("status", "Status", true, false, false),
      ColumnConfig("contact_name", "Contato", false, false, false),
      ColumnConfig("email", "Email", false, false, false),
      ColumnConfig("phone", "Telefone", false, false, false),
      ColumnConfig("phone_secondary", "Telefone Secundário", false, false, false),
      ColumnConfig("cnpj", "CNPJ", false, false, false),
      ColumnConfig("assignee", "Responsável", false, false, false),
      ColumnConfig("created_at", "Criado em", false, false, false) ]
  }

  predicate HasColumn(cs: seq<ColumnConfig>, k: string) {
    exists i :: 0 <= i < |cs| && cs[i].key == k
  }

  predicate DistinctKeys(cs: seq<ColumnConfig>) {
    forall i, j :: 0 <= i < j < |cs| ==> cs[i].key != cs[j].key
  }

  /** Appends each column of `extra`, in order, whose key is not yet present (counting the ones just appended). */
  function AppendMissing(cs: seq<ColumnConfig>, extra: seq<ColumnConfig>): (r: seq<ColumnConfig>)
    ensures |cs| <= |r| && r[..|cs|] == cs
    decreases |extra|
  {
    if extra == [] then cs
    else
      var prev := AppendMissing(cs, extra[..|extra| - 1]);
      var e := extra[|extra| - 1];
      if HasColumn(prev, e.key) then prev else prev + [e]
  }

  lemma AppendMissingStep(cs: seq<ColumnConfig>, extra: seq<ColumnConfig>, e: ColumnConfig)
    ensures AppendMissing(cs, extra + [e])
         == (if HasColumn(AppendMissing(cs, extra), e.key) then AppendMissing(cs, extra) else AppendMissing(cs, extra) + [e])
  {
    assert (extra + [e])[..|extra|] == extra;
  }

  /** After the merge every key of the base and of the extra columns is present. */
  lemma {:induction false} AppendMissingCovers(cs: seq<ColumnConfig>, extra: seq<ColumnConfig>, k: string)
    requires HasColumn(cs, k) || exists i :: 0 <= i < |extra| && extra[i].key == k
    ensures HasColumn(AppendMissing(cs, extra), k)
    decreases |extra|
  {
    var r := AppendMissing(cs, extra);
    if HasColumn(cs, k) {
      var i :| 0 <= i < |cs| && cs[i].key == k;
      assert r[i] == cs[i];
    } else {
      var init := extra[..|extra| - 1];
      var e := extra[|extra| - 1];
      var prev := AppendMissing(cs, init);
      if e.key == k {
        if !HasColumn(prev, k) {
          assert r[|r| - 1] == e;
        }
      } else {
        var i :| 0 <= i < |extra| && extra[i].key == k;
        assert i < |extra| - 1 && init[i] == extra[i];
        AppendMissingCovers(cs, init, k);
        var j :| 0 <= j < |prev| && prev[j].key == k;
        assert r[j] == prev[j];
      }
    }
  }

  /** The merge never introduces a second column with the same key. */
  lemma {:induction false} AppendMissingDistinct(cs: seq<ColumnConfig>, extra: seq<ColumnConfig>)
    requires DistinctKeys(cs)
    ensures DistinctKeys(AppendMissing(cs, extra))
    decreases |extra|
  {
    if extra != [] {
      AppendMissingDistinct(cs, extra[..|extra| - 1]);
    }
  }

  /** Every appended column comes from the extra columns. */
  lemma {:induction false} AppendMissingFrom(cs: seq<ColumnConfig>, extra: seq<ColumnConfig>, i: int)
    requires |cs| <= i < |AppendMissing(cs, extra)|
    ensures AppendMissing(cs, extra)[i] in extra
    decreases |extra|
  {
    var init := extra[..|extra| - 1];
    var prev := AppendMissing(cs, init);
    if i < |prev| {
      AppendMissingFrom(cs, init, i);
    }
  }

  lemma HasColumnAppend(cs: seq<ColumnConfig>, e: ColumnConfig, k: string)
    ensures HasColumn(cs + [e], k) <==> HasColumn(cs, k) || e.key == k
  {
    if HasColumn(cs, k) {
      var i :| 0 <= i < |cs| && cs[i].key == k;
      assert (cs + [e])[i] == cs[i];
    }
    if e.key == k {
      assert (cs + [e])[|cs|] == e;
    }
  }

  /** One merge pass of the initial configuration: `keys` tracks the keys already present, as the source's key set does. */
  method AppendMissingKeys(config: seq<ColumnConfig>, keys: set<string>, extra: seq<ColumnConfig>)
    returns (r: seq<ColumnConfig>, rkeys: set<string>)
    requires forall k :: k in keys <==> HasColumn(config, k)
    ensures r == AppendMissing(config, extra)
    ensures forall k :: k in rkeys <==> HasColumn(r, k)
  {
    r, rkeys := config, keys;
    for i := 0 to |extra|
      invariant r == AppendMissing(config, extra[..i])
      invariant forall k :: k in rkeys <==> HasColumn(r, k)
    {
      AppendMissingStep(config, extra[..i], extra[i]);
      assert extra[..i + 1] == extra[..i] + [extra[i]];
      if extra[i].key !in rkeys {
        forall k ensures HasColumn(r + [extra[i]], k) <==> HasColumn(r, k) || extra[i].key == k {
          HasColumnAppend(r, extra[i], k);
        }
        r := r + [extra[i]];
        rkeys := rkeys + {extra[i].key};
      }
    }
    assert extra[..|extra|] == extra;
  }

  /**
   * The initial column configuration. With nothing saved it is the built-in
   * columns followed by the saved custom ones; otherwise the saved order is
   * kept and each missing built-in key, then each missing custom key, is
   * appended once.
   */
  method InitialConfig(saved: seq<ColumnConfig>, custom: seq<ColumnConfig>) returns (config: seq<ColumnConfig>)
    ensures saved == [] ==> config == DefaultColumns() + custom
    ensures saved != [] ==> config == AppendMissing(AppendMissing(saved, DefaultColumns()), custom)
  {
    if |saved| == 0 {
      return DefaultColumns() + custom;
    }
    var configKeys := set i | 0 <= i < |saved| :: saved[i].key;
    config, configKeys := AppendMissingKeys(saved, configKeys, DefaultColumns());
    config, configKeys := AppendMissingKeys(config, configKeys, custom);
  }

  /** A saved configuration comes back first, in its order, and every built-in column is present after it. */
  lemma InitialConfigKeepsSaved(saved: seq<ColumnConfig>, custom: seq<ColumnConfig>, i: int)
    requires saved != [] && 0 <= i < |DefaultColumns()|
    ensures var config := AppendMissing(AppendMissing(saved, DefaultColumns()), custom);
      config[..|saved|] == saved && HasColumn(config, DefaultColumns()[i].key)
  {
    var withDefaults := AppendMissing(saved, DefaultColumns());
    AppendMissingCovers(saved, DefaultColumns(), DefaultColumns()[i].key);
    AppendMissingCovers(withDefaults, custom, DefaultColumns()[i].key);
    assert AppendMissing(withDefaults, custom)[..|saved|] == withDefaults[..|saved|];
  }

  /** The custom-definitions effect: the definitions whose key is not yet in the configuration are appended. */
  function SyncCustom(config: seq<ColumnConfig>, defs: seq<ColumnConfig>): (r: seq<ColumnConfig>)
    ensures |config| <= |r| && r[..|config|] == config
    ensures forall i :: 0 <= i < |defs| ==> HasColumn(r, defs[i].key)
  {
    var added := Filter(defs, (c: ColumnConfig) => !HasColumn(config, c.key));
    FilterComplete(defs, (c: ColumnConfig) => !HasColumn(config, c.key));
    var r := config + added;
    assert forall i :: 0 <= i < |config| ==> r[i] == config[i];
    forall i | 0 <= i < |defs| ensures HasColumn(r, defs[i].key) {
      if !HasColumn(config, defs[i].key) {
        var j :| 0 <= j < |added| && added[j] == defs[i];
        assert r[|config| + j] == defs[i];
      } else {
        var j :| 0 <= j < |config| && config[j].key == defs[i].key;
        assert r[j] == config[j];
      }
    }
    r
  }

  /** The column made for a custom-field key found on a deal: labelled by its key, hidden, custom. */
  function FieldColumn(k: string): (c: ColumnConfig)
    ensures c.key == k && !c.visible && c.isCustom
  {
    ColumnConfig(k, k, false, false, true)
  }

  function FieldColumns(fields: seq<(string, string)>): (cs: seq<ColumnConfig>)
    ensures |cs| == |fields| && forall i :: 0 <= i < |fields| ==> cs[i] == FieldColumn(fields[i].0)
  {
    Map(fields, (f: (string, string)) => FieldColumn(f.0))
  }

  /** The columns for every custom-field key of the deals, deal by deal. */
  function DealFieldColumns(deals: seq<Deal>): (cs: seq<ColumnConfig>)
    decreases |deals|
  {
    if deals == [] then []
    else DealFieldColumns(deals[..|deals| - 1]) + FieldColumns(deals[|deals| - 1].customFields)
  }

  /** The order of the text keys: a string that is already among the collected keys changes nothing. */
  lemma AppendMissingRepeat(cs: seq<ColumnConfig>, extra: seq<ColumnConfig>, e: ColumnConfig)
    requires exists i :: 0 <= i < |extra| && extra[i].key == e.key
    ensures AppendMissing(cs, extra + [e]) == AppendMissing(cs, extra)
  {
    AppendMissingStep(cs, extra, e);
    AppendMissingCovers(cs, extra, e.key);
  }

  lemma DealFieldColumnsSnoc(deals: seq<Deal>, i: int)
    requires 0 <= i < |deals|
    ensures DealFieldColumns(deals[..i + 1]) == DealFieldColumns(deals[..i]) + FieldColumns(deals[i].customFields)
  {
    assert deals[..i + 1][..i] == deals[..i];
  }

  lemma FieldColumnsSnoc(fields: seq<(string, string)>, j: int)
    requires 0 <= j < |fields|
    ensures FieldColumns(fields[..j + 1]) == FieldColumns(fields[..j]) + [FieldColumn(fields[j].0)]
  {
  }

  /**
   * Every custom-field key of a deal that has no column yet gets a hidden
   * custom column, once, in the order the keys are first met, deal by deal.
   */
  method MergeFieldColumns(config: seq<ColumnConfig>, deals: seq<Deal>) returns (r: seq<ColumnConfig>)
    ensures r == AppendMissing(config, DealFieldColumns(deals))
  {
    r := config;
    for i := 0 to |deals|
      invariant r == AppendMissing(config, DealFieldColumns(deals[..i]))
    {
      ghost var before := DealFieldColumns(deals[..i]);
      var fields := deals[i].customFields;
      DealFieldColumnsSnoc(deals, i);
      assert before + FieldColumns(fields[..0]) == before;
      for j := 0 to |fields|
        invariant r == AppendMissing(config, before + FieldColumns(fields[..j]))
      {
        var key := fields[j].0;
        ghost var acc := before + FieldColumns(fields[..j]);
        FieldColumnsSnoc(fields, j);
        assert before + FieldColumns(fields[..j + 1]) == acc + [FieldColumn(key)];
        AppendMissingStep(config, acc, FieldColumn(key));
        if !HasColumn(r, key) {
          r := r + [FieldColumn(key)];
        }
      }
      assert fields[..|fields|] == fields;
    }
    assert deals[..|deals|] == deals;
  }

  // --------------------------------------------------------- custom keys

  /** Each run of white space becomes one '_'. */
  function UnderscoreSpaces(s: string): (r: string)
    ensures forall i :: 0 <= i < |r| ==> !IsSpace(r[i])
    ensures (forall i :: 0 <= i < |s| ==> !IsSpace(s[i])) ==> r == s
    ensures |r| <= |s|
    decreases |s|
  {
    if s == [] then []
    else if IsSpace(s[0]) then "_" + UnderscoreSpaces(TrimStart(s))
    else [s[0]] + UnderscoreSpaces(s[1..])
  }

  /** A character other than white space passes through, whatever follows it. */
  lemma UnderscoreSpacesCons(c: char, t: string)
    requires !IsSpace(c)
    ensures UnderscoreSpaces([c] + t) == [c] + UnderscoreSpaces(t)
  {
    assert ([c] + t)[1..] == t;
  }

  /** A whole run of white space, however long, becomes a single '_'. */
  lemma UnderscoreSpacesRun(w: string, y: string)
    requires w != [] && IsBlank(w) && (y == [] || !IsSpace(y[0]))
    ensures UnderscoreSpaces(w + y) == "_" + UnderscoreSpaces(y)
  {
    TrimStartBlank(w, y);
  }

  /** Trimming the start of a blank prefix and what follows. */
  lemma {:induction false} TrimStartBlank(w: string, y: string)
    requires IsBlank(w) && (y == [] || !IsSpace(y[0]))
    ensures TrimStart(w + y) == y
  {
    if w != [] {
      assert (w + y)[0] == w[0];
      assert (w + y)[1..] == w[1..] + y;
      TrimStartBlank(w[1..], y);
    } else {
      assert w + y == y;
    }
  }

  /** The key of a new custom column: its name lower-cased, white-space runs as '_'. */
  function ColumnKey(name: string): (k: string)
    ensures forall i :: 0 <= i < |k| ==> !IsSpace(k[i])
  {
    UnderscoreSpaces(Lower(name))
  }

  /** In a key, a character other than white space is lower-cased, whatever follows it. */
  lemma ColumnKeyChar(c: char, y: string)
    requires !IsSpace(c)
    ensures ColumnKey([c] + y) == [LowerChar(c)] + ColumnKey(y)
  {
    assert Lower([c] + y) == [LowerChar(c)] + Lower(y);
    UnderscoreSpacesCons(LowerChar(c), Lower(y));
  }

  /** In a key, a whole run of white space becomes one '_'. */
  lemma ColumnKeyRun(w: string, y: string)
    requires w != [] && IsBlank(w) && (y == [] || !IsSpace(y[0]))
    ensures ColumnKey(w + y) == "_" + ColumnKey(y)
  {
    assert Lower(w + y) == Lower(w) + Lower(y);
    UnderscoreSpacesRun(Lower(w), Lower(y));
  }


  lemma {:induction false} UnderscoreSpacesLower(s: string)
    requires Lower(s) == s
    ensures Lower(UnderscoreSpaces(s)) == UnderscoreSpaces(s)
    decreases |s|
  {
    if s != [] {
      if IsSpace(s[0]) {
        var t := TrimStart(s);
        assert t == s[|s| - |t|..];
        assert Lower(t) == t by {
          forall i | 0 <= i < |t| ensures LowerChar(t[i]) == t[i] {
            assert t[i] == s[|s| - |t| + i];
          }
        }
        UnderscoreSpacesLower(t);
        LowerCons('_', UnderscoreSpaces(t));
      } else {
        assert Lower(s[1..]) == s[1..] by {
          forall i | 0 <= i < |s| - 1 ensures LowerChar(s[1..][i]) == s[1..][i] {
            assert s[1..][i] == s[i + 1];
          }
        }
        UnderscoreSpacesLower(s[1..]);
        assert LowerChar(s[0]) == s[0];
        LowerCons(s[0], UnderscoreSpaces(s[1..]));
      }
    }
  }

  /** A lower-case character in front of lower-case text keeps it lower-case. */
  lemma LowerCons(c: char, s: string)
    requires LowerChar(c) == c && Lower(s) == s
    ensures Lower([c] + s) == [c] + s
  {
    assert forall i :: 0 < i <= |s| ==> ([c] + s)[i] == s[i - 1];
  }

  /** A key typed again as a column name gives back the same key. */
  lemma ColumnKeyIdempotent(name: string)
    ensures ColumnKey(ColumnKey(name)) == ColumnKey(name)
  {
    LowerIdempotent(name);
    UnderscoreSpacesLower(Lower(name));
  }

  /**
   * The column a custom-column name defines: none for a blank name or for a
   * key already taken by a configured column or a custom definition;
   * otherwise a visible custom column with that key, labelled by the name.
   */
  function NewCustomColumn(name: string, config: seq<ColumnConfig>, defs: seq<ColumnConfig>): (r: Option<ColumnConfig>)
    ensures r.Some? <==> !IsBlank(name) && !HasColumn(config, ColumnKey(name)) && !HasColumn(defs, ColumnKey(name))
    ensures r.Some? ==> r.value.key == ColumnKey(name) && r.value.caption == name && r.value.visible && r.value.isCustom && !r.value.locked
  {
    TrimEmptyIffBlank(name);
    if Trim(name) == [] then None
    else
      var key := ColumnKey(name);
      if HasColumn(config, key) || HasColumn(defs, key) then None
      else Some(ColumnConfig(key, name, true, false, true))
  }

  /** Once a column is defined, the same name is refused, and so is any name reading as the same key. */
  lemma NewCustomColumnOnce(name: string, other: string, config: seq<ColumnConfig>, defs: seq<ColumnConfig>)
    requires NewCustomColumn(name, config, defs).Some?
    requires ColumnKey(other) == ColumnKey(name)
    ensures NewCustomColumn(other, config, defs + [NewCustomColumn(name, config, defs).value]).None?
    ensures NewCustomColumn(other, SyncCustom(config, defs + [NewCustomColumn(name, config, defs).value]), []).None?
  {
    var c := NewCustomColumn(name, config, defs).value;
    assert (defs + [c])[|defs|] == c;
  }

  // ---------------------------------------------------- filters and sort

  /** A deal field as the table reads it by key: a text field, a number field, or not a field (`undefined`). */
  datatype RawField = TextField(text: Option<string>) | NumberField(number: Option<real>) | NoField

  function DealField(d: Deal, key: string): (f: RawField)
  {
    match key
    case "id" => TextField(Some(d.id))
    case "client_name" => TextField(Some(d.clientName))
    case "title" => TextField(Some(d.title))
    case "contact_name" => TextField(d.contactName)
    case "cnpj" => TextField(d.cnpj)
    case "email" => TextField(d.email)
    case "phone" => TextField(d.phone)
    case "phone_secondary" => TextField(d.phoneSecondary)
    case "tag" => TextField(d.tag)
    case "status" => TextField(d.status)
    case "assignee_id" => TextField(d.assigneeId)
    case "pipeline_id" => TextField(d.pipelineId)
    case "value" => NumberField(d.value)
    case "recovered_value" => NumberField(d.recoveredValue)
    case "progress" => NumberField(Some(d.progress as real))
    case _ => NoField
  }

  /** The status column's text: the Portuguese label of a known status, the raw status otherwise; a missing one reads as active. */
  function StatusText(status: Option<string>): (t: string)
    ensures status.None? || status == Some("") || status == Some("active") ==> t == "Em Andamento"
  {
    var s := if status.Some? && status.value != "" then status.value else "active";
    match s
    case "active" => "Em Andamento"
    case "won" => "Ganho"
    case "lost" => "Perdido"
    case "archived" => "Arquivado"
    case _ => s
  }

  /** The text a column filter is matched against. `numberText` is `String(n)`, `formatDate` the locale date text. */
  function FilterText(d: Deal, key: string, numberText: real -> string, formatDate: Option<int> -> string): (t: string)
  {
    if key == "assignee" then OrEmpty(d.assigneeName)
    else if key == "tag" then OrEmpty(d.tag)
    else if key == "status" then StatusText(d.status)
    else if key == "created_at" then formatDate(d.createdAt)
    else match DealField(d, key)
      case TextField(t) => OrEmpty(t)
      case NumberField(n) => if n.None? || n.value == 0.0 then "" else numberText(n.value)
      case NoField =>
        var c := Lookup(d.customFields, key);
        if c.Some? && c.value != "" then c.value else ""
  }

  /** The ids picked in the stage filter: the non-empty pieces of the comma-separated text. */
  function SelectedIds(filterValue: string): (ids: seq<string>)
  {
    Filter(Split(filterValue, ","), (s: string) => s != "")
  }

  /** The stage filter on a deal's stage: no picked id keeps every deal, otherwise its stage (`''` for none) must be picked. */
  predicate StagePasses(pipelineId: Option<string>, filterValue: string) {
    var ids := SelectedIds(filterValue);
    ids == [] || OrEmpty(pipelineId) in ids
  }

  /** One column filter on one deal. An empty filter passes everything; the stage filter is a multi-select. */
  predicate EntryPasses(d: Deal, key: string, filterValue: string, numberText: real -> string, formatDate: Option<int> -> string) {
    if filterValue == "" then true
    else if key == "pipeline_id" then StagePasses(d.pipelineId, filterValue)
    else Contains(Lower(FilterText(d, key, numberText, formatDate)), Lower(filterValue))
  }

  predicate DealMatches(d: Deal, filters: seq<(string, string)>, numberText: real -> string, formatDate: Option<int> -> string) {
    forall i :: 0 <= i < |filters| ==> EntryPasses(d, filters[i].0, filters[i].1, numberText, formatDate)
  }

  lemma JoinNotEmpty(parts: seq<string>, sep: string)
    requires |parts| >= 1 && parts[0] != ""
    ensures Join(parts, sep) != ""
  {
    if |parts| > 1 {
      assert Join(parts, sep) == parts[0] + sep + Join(parts[1..], sep);
    }
  }

  /**
   * The picker writes the picked stage ids joined by commas; such a filter
   * keeps a deal exactly when its stage is among them, and picking none
   * gives the empty filter, which keeps every deal.
   */
  lemma StageFilterMeaning(pipelineId: Option<string>, ids: seq<string>)
    requires forall i :: 0 <= i < |ids| ==> ids[i] != "" && ',' !in ids[i]
    ensures ids == [] ==> Join(ids, ",") == ""
    ensures ids != [] ==> Join(ids, ",") != "" && (StagePasses(pipelineId, Join(ids, ",")) <==> OrEmpty(pipelineId) in ids)
  {
    if ids != [] {
      JoinNotEmpty(ids, ",");
      SplitJoin(ids, ',');
      FilterAll(ids, (s: string) => s != "");
      assert SelectedIds(Join(ids, ",")) == ids;
    }
  }

  /** A sort key: a number, a text, or `null`. */
  datatype SortValue = Num(n: real) | Str(s: string) | Null

  /** The stage name for the stage column: 'Sem Fase' without a stage, 'Desconhecido' for an unknown or unnamed one. */
  function StageName(columns: seq<Column>, pipelineId: Option<string>): (name: string)
    ensures name != ""
  {
    if pipelineId.None? || pipelineId.value == "" then "Sem Fase"
    else
      var i := ColumnIndex(columns, pipelineId);
      if i >= 0 && columns[i].name != "" then columns[i].name else "Desconhecido"
  }

  function SortValueOf(d: Deal, key: string, columns: seq<Column>): (v: SortValue)
  {
    if key == "assignee" then Str(OrEmpty(d.assigneeName))
    else if key == "pipeline_id" then Str(StageName(columns, d.pipelineId))
    else if key == "created_at" then Num(d.createdAt.GetOr(0) as real)
    else match DealField(d, key)
      case TextField(t) => if t.Some? then Str(t.value) else Null
      case NumberField(n) => if n.Some? then Num(n.value) else Null
      case NoField =>
        var c := Lookup(d.customFields, key);
        Str(if c.Some? && c.value != "" then c.value else "")
  }

  /** JavaScript's `<` on strings: the first differing character decides; a proper prefix comes first. */
  predicate StrLess(a: string, b: string)
    decreases |a|
  {
    if b == [] then false
    else if a == [] then true
    else if a[0] != b[0] then a[0] < b[0]
    else StrLess(a[1..], b[1..])
  }

  lemma {:induction false} StrLessTotal(a: string, b: string)
    ensures StrLess(a, b) || StrLess(b, a) || a == b
    ensures !(StrLess(a, b) && StrLess(b, a))
    decreases |a|
  {
    if a != [] && b != [] && a[0] == b[0] {
      StrLessTotal(a[1..], b[1..]);
      if a[1..] == b[1..] {
        assert a == [a[0]] + a[1..] && b == [b[0]] + b[1..];
      }
    }
  }

  lemma {:induction false} StrLessTransitive(a: string, b: string, c: string)
    requires StrLess(a, b) && StrLess(b, c)
    ensures StrLess(a, c)
    decreases |a|
  {
    if a != [] && a[0] == b[0] && b[0] == c[0] {
      StrLessTransitive(a[1..], b[1..], c[1..]);
    }
  }

  /** The text `String(v)` of a sort key; `null` reads as "null". */
  function ValueText(v: SortValue, numberText: real -> string): string {
    match v
    case Num(n) => numberText(n)
    case Str(s) => s
    case Null => "null"
  }

  /** The table's comparator: equal keys tie, two numbers compare numerically, anything else by lower-cased text. */
  function CompareValues(a: SortValue, b: SortValue, asc: bool, numberText: real -> string): (c: int)
    ensures -1 <= c <= 1
    ensures a == b ==> c == 0
  {
    if a == b then 0
    else if a.Num? && b.Num? then
      (if a.n < b.n then (if asc then -1 else 1) else if a.n > b.n then (if asc then 1 else -1) else 0)
    else
      var ta := Lower(ValueText(a, numberText));
      var tb := Lower(ValueText(b, numberText));
      if StrLess(ta, tb) then (if asc then -1 else 1)
      else if StrLess(tb, ta) then (if asc then 1 else -1)
      else 0
  }

  datatype Direction = Asc | Desc
  datatype SortConfig = SortConfig(key: string, direction: Direction)

  function DealCompare(config: SortConfig, columns: seq<Column>, numberText: real -> string): (Deal, Deal) -> int {
    (a: Deal, b: Deal) =>
      CompareValues(SortValueOf(a, config.key, columns), SortValueOf(b, config.key, columns), config.direction == Asc, numberText)
  }

  /** `processedDeals`: the deals passing every column filter, then sorted by the active sort, if any. */
  function ProcessedDeals(deals: seq<Deal>, filters: seq<(string, string)>, sort: Option<SortConfig>, columns: seq<Column>,
                          numberText: real -> string, formatDate: Option<int> -> string): (r: seq<Deal>)
    ensures var kept := Filter(deals, (d: Deal) => DealMatches(d, filters, numberText, formatDate));
      multiset(r) == multiset(kept) && (sort.None? ==> r == kept)
  {
    var kept := Filter(deals, (d: Deal) => DealMatches(d, filters, numberText, formatDate));
    if sort.None? then kept else SortWith(kept, DealCompare(sort.value, columns, numberText))
  }

  /** A column whose keys are all texts (or `null`): its comparator is consistent in either direction. */
  predicate TextColumn(deals: seq<Deal>, key: string, columns: seq<Column>) {
    forall d :: d in deals ==> !SortValueOf(d, key, columns).Num?
  }

  lemma TextCompareConsistent(deals: seq<Deal>, config: SortConfig, columns: seq<Column>, numberText: real -> string)
    requires TextColumn(deals, config.key, columns)
    ensures Consistent(DealCompare(config, columns, numberText), deals)
  {
    var cmp := DealCompare(config, columns, numberText);
    var asc := config.direction == Asc;
    forall a, b | a in deals && b in deals
      ensures var ta := Lower(ValueText(SortValueOf(a, config.key, columns), numberText));
        var tb := Lower(ValueText(SortValueOf(b, config.key, columns), numberText));
        NotAfter(cmp, a, b) <==> (if asc then !StrLess(tb, ta) else !StrLess(ta, tb))
    {
      var va := SortValueOf(a, config.key, columns);
      var vb := SortValueOf(b, config.key, columns);
      var ta := Lower(ValueText(va, numberText));
      var tb := Lower(ValueText(vb, numberText));
      StrLessTotal(ta, tb);
      if va == vb {
        assert ta == tb;
      }
    }
    forall a, b, c | a in deals && b in deals && c in deals
      ensures NotAfter(cmp, a, b) && NotAfter(cmp, b, c) ==> NotAfter(cmp, a, c)
    {
      var ta := Lower(ValueText(SortValueOf(a, config.key, columns), numberText));
      var tb := Lower(ValueText(SortValueOf(b, config.key, columns), numberText));
      var tc := Lower(ValueText(SortValueOf(c, config.key, columns), numberText));
      StrLessTotal(ta, tb);
      StrLessTotal(tb, tc);
      StrLessTotal(ta, tc);
      if StrLess(tc, ta) && StrLess(ta, tb) { StrLessTransitive(tc, ta, tb); }
      if StrLess(tb, tc) && StrLess(tc, ta) { StrLessTransitive(tb, tc, ta); }
      if StrLess(ta, tc) && StrLess(tc, tb) { StrLessTransitive(ta, tc, tb); }
      if StrLess(tc, tb) && StrLess(ta, tc) { StrLessTransitive(ta, tc, tb); }
      if StrLess(tb, ta) && StrLess(tc, tb) { StrLessTransitive(tc, tb, ta); }
    }
    forall a, b | a in deals && b in deals && cmp(a, b) >= 0 ensures NotAfter(cmp, b, a) {
      var ta := Lower(ValueText(SortValueOf(a, config.key, columns), numberText));
      var tb := Lower(ValueText(SortValueOf(b, config.key, columns), numberText));
      StrLessTotal(ta, tb);
    }
  }

  /** Sorting by a text column puts the filtered deals in order (the comparator's), in either direction. */
  lemma ProcessedDealsSorted(deals: seq<Deal>, filters: seq<(string, string)>, config: SortConfig, columns: seq<Column>,
                             numberText: real -> string, formatDate: Option<int> -> string)
    requires TextColumn(deals, config.key, columns)
    ensures SortedWith(ProcessedDeals(deals, filters, Some(config), columns, numberText, formatDate),
                       DealCompare(config, columns, numberText))
  {
    var kept := Filter(deals, (d: Deal) => DealMatches(d, filters, numberText, formatDate));
    TextCompareConsistent(deals, config, columns, numberText);
    FilterKeeps(deals, (d: Deal) => DealMatches(d, filters, numberText, formatDate));
    ConsistentSub(DealCompare(config, columns, numberText), deals, kept);
    SortWithSorted(kept, DealCompare(config, columns, numberText));
  }

  /** `handleSort`: another key sorts ascending; the same key goes ascending, then descending, then off. */
  function NextSort(current: Option<SortConfig>, key: string): (next: Option<SortConfig>)
    ensures current.None? || current.value.key != key ==> next == Some(SortConfig(key, Asc))
    ensures current == Some(SortConfig(key, Asc)) ==> next == Some(SortConfig(key, Desc))
    ensures current == Some(SortConfig(key, Desc)) ==> next.None?
  {
    if current.Some? && current.value.key == key then
      (if current.value.direction == Asc then Some(SortConfig(key, Desc)) else None)
    else Some(SortConfig(key, Asc))
  }

  /** Three clicks on one column header return to the state before them, from any state. */
  lemma {:induction false} SortCycle(current: Option<SortConfig>, key: string)
    requires current.None? || current.value.key == key
    ensures NextSort(NextSort(NextSort(current, key), key), key) == current
  {
  }

  /** The filter text of a column, `''` when there is none. */
  function FilterValue(filters: seq<(string, string)>, key: string): (v: string)
  {
    Lookup(filters, key).GetOr("")
  }

  /** `toggleFilterOption`: the option is removed from the comma-separated selection when present, appended otherwise. */
  function ToggleFilterOption(filters: seq<(string, string)>, key: string, option: string): (r: seq<(string, string)>)
    ensures forall k :: k != key ==> Lookup(r, k) == Lookup(filters, k)
  {
    var v := FilterValue(filters, key);
    var current := if v != "" then Split(v, ",") else [];
    SetEntry(filters, key, Join(Toggle(current, option), ","))
  }

  /**
   * Toggling an option that is not selected, twice, restores the column's
   * filter text (an absent filter comes back as the empty text, which
   * filters nothing), when the option is a non-empty text without commas.
   */
  lemma ToggleFilterOptionTwice(filters: seq<(string, string)>, key: string, option: string)
    requires option != "" && ',' !in option
    requires var v := FilterValue(filters, key); v == "" || option !in Split(v, ",")
    ensures FilterValue(ToggleFilterOption(ToggleFilterOption(filters, key, option), key, option), key) == FilterValue(filters, key)
  {
    var v := FilterValue(filters, key);
    var current := if v != "" then Split(v, ",") else [];
    var once := Join(Toggle(current, option), ",");
    assert FilterValue(ToggleFilterOption(filters, key, option), key) == once;
    var added := current + [option];
    assert Toggle(current, option) == added;
    if v != "" {
      SplitPartsLack(v, ',');
      JoinSplit(v, ",");
    }
    assert forall k :: 0 <= k < |added| ==> ',' !in added[k];
    SplitJoin(added, ',');
    assert once != "" by {
      if |added| > 1 {
        JoinCons(added[0], added[1..], ",");
        assert added == [added[0]] + added[1..];
      }
    }
    ToggleTwice(current, option);
  }

  // ------------------------------------------------------------ selection

  /** The header checkbox as written: it clears when the selection has as many ids as there are rows. */
  function SelectAllAsWritten(selected: set<string>, rows: seq<Deal>): (r: set<string>)
    ensures |selected| == |rows| ==> r == {}
    ensures |selected| != |rows| ==> forall d :: d in rows ==> d.id in r
  {
    if |selected| == |rows| then {} else set d | d in rows :: d.id
  }

  /**
   * Counting is not the same as "every row selected": with rows a and c on
   * screen and a stale selection {a, b} from before a filter change, the
   * header clears the selection although c was never selected.
   */
  lemma SelectAllAsWrittenClearsStale(a: Deal, c: Deal)
    requires a.id == "a" && c.id == "c"
    ensures var selected := {"a", "b"};
      "c" !in selected && SelectAllAsWritten(selected, [a, c]) == {}
  {
    assert |{"a", "b"}| == 2;
  }

  /** Every row on screen is selected. */
  predicate AllRowsSelected(selected: set<string>, rows: seq<Deal>) {
    forall i :: 0 <= i < |rows| ==> rows[i].id in selected
  }

  /** The header checkbox as intended: clear when every row is selected, else select every row. */
  function SelectAll(selected: set<string>, rows: seq<Deal>): (r: set<string>)
    ensures AllRowsSelected(selected, rows) ==> r == {}
    ensures !AllRowsSelected(selected, rows) ==> AllRowsSelected(r, rows) && forall id :: id in r ==> exists i :: 0 <= i < |rows| && rows[i].id == id
  {
    if AllRowsSelected(selected, rows) then {} else set i | 0 <= i < |rows| :: rows[i].id
  }

  /** On a selection made of exactly the rows' distinct ids, the written and the intended header behave alike. */
  lemma SelectAllAgrees(rows: seq<Deal>)
    requires forall i, j :: 0 <= i < j < |rows| ==> rows[i].id != rows[j].id
    ensures var selected := set i | 0 <= i < |rows| :: rows[i].id;
      SelectAllAsWritten(selected, rows) == SelectAll(selected, rows) == {}
  {
    var selected := set i | 0 <= i < |rows| :: rows[i].id;
    DistinctIdsCard(rows);
    assert AllRowsSelected(selected, rows) by {
      forall i | 0 <= i < |rows| ensures rows[i].id in selected {
      }
    }
  }

  lemma {:induction false} DistinctIdsCard(rows: seq<Deal>)
    requires forall i, j :: 0 <= i < j < |rows| ==> rows[i].id != rows[j].id
    ensures |set i | 0 <= i < |rows| :: rows[i].id| == |rows|
  {
    if rows != [] {
      var init := rows[..|rows| - 1];
      var last := rows[|rows| - 1];
      DistinctIdsCard(init);
      var s := set i | 0 <= i < |rows| :: rows[i].id;
      var t := set i | 0 <= i < |init| :: init[i].id;
      assert s == t + {last.id} by {
        forall x | x in s ensures x in t + {last.id} {
          var i :| 0 <= i < |rows| && rows[i].id == x;
          if i < |init| {
            assert init[i] == rows[i];
          }
        }
        forall x | x in t ensures x in s {
          var i :| 0 <= i < |init| && init[i].id == x;
          assert rows[i] == init[i];
        }
        assert rows[|rows| - 1].id in s;
      }
    }
  }

  /** A custom-field edit: the deal's fields with `field` set to `value`, added last when new. */
  function EditedFields(d: Deal, field: string, value: string): (fields: seq<(string, string)>)
    ensures Lookup(fields, field) == Some(value)
    ensures forall k :: k != field ==> Lookup(fields, k) == Lookup(d.customFields, k)
  {
    SetEntry(d.customFields, field, value)
  }

  // ---------------------------------------------------------------- view

  /** The table's own state; the deals and the stages are the page's. */
  class ListView {
    var columnConfig: seq<ColumnConfig>
    var customColumnDefs: seq<ColumnConfig>
    var selected: set<string>
    var sortConfig: Option<SortConfig>
    var filters: seq<(string, string)>
    var newColumnName: string

    constructor (savedConfig: seq<ColumnConfig>, savedCustom: seq<ColumnConfig>)
      ensures savedConfig == [] ==> columnConfig == DefaultColumns() + savedCustom
      ensures savedConfig != [] ==> columnConfig == AppendMissing(AppendMissing(savedConfig, DefaultColumns()), savedCustom)
      ensures customColumnDefs == savedCustom && selected == {} && sortConfig.None? && filters == [] && newColumnName == ""
    {
      var config := InitialConfig(savedConfig, savedCustom);
      columnConfig := config;
      customColumnDefs := savedCustom;
      selected := {};
      sortConfig := None;
      filters := [];
      newColumnName := "";
    }

    /** The effect run when the custom definitions change: it only ever appends to the configuration. */
    method SyncCustomColumns()
      modifies this
      ensures columnConfig == SyncCustom(old(columnConfig), customColumnDefs)
      ensures customColumnDefs == old(customColumnDefs) && selected == old(selected)
      ensures sortConfig == old(sortConfig) && filters == old(filters) && newColumnName == old(newColumnName)
    {
      columnConfig := SyncCustom(columnConfig, customColumnDefs);
    }

    /** The effect run when the deals change (see `MergeFieldColumns`). */
    method SyncFieldColumns(deals: seq<Deal>)
      modifies this
      ensures columnConfig == AppendMissing(old(columnConfig), DealFieldColumns(deals))
      ensures customColumnDefs == old(customColumnDefs) && selected == old(selected)
      ensures sortConfig == old(sortConfig) && filters == old(filters) && newColumnName == old(newColumnName)
    {
      columnConfig := MergeFieldColumns(columnConfig, deals);
    }

    /** `handleAddCustomColumn`: a new column is defined and the name box cleared, or nothing changes. */
    method AddCustomColumn() returns (added: bool)
      modifies this`customColumnDefs, this`newColumnName
      ensures added <==> NewCustomColumn(old(newColumnName), old(columnConfig), old(customColumnDefs)).Some?
      ensures !added ==> customColumnDefs == old(customColumnDefs) && newColumnName == old(newColumnName)
      ensures added ==>
        (customColumnDefs == old(customColumnDefs) + [NewCustomColumn(old(newColumnName), old(columnConfig), old(customColumnDefs)).value]
         && newColumnName == "")
    {
      var column := NewCustomColumn(newColumnName, columnConfig, customColumnDefs);
      added := column.Some?;
      if added {
        customColumnDefs := customColumnDefs + [column.value];
        newColumnName := "";
      }
    }

    /** `handleDeleteCustomColumn`: once confirmed, the definition goes; the configured column stays. */
    method DeleteCustomColumn(key: string, confirmed: bool)
      modifies this
      ensures confirmed ==> customColumnDefs == Filter(old(customColumnDefs), (c: ColumnConfig) => c.key != key)
      ensures !confirmed ==> customColumnDefs == old(customColumnDefs)
      ensures columnConfig == old(columnConfig) && selected == old(selected)
      ensures sortConfig == old(sortConfig) && filters == old(filters) && newColumnName == old(newColumnName)
    {
      if confirmed {
        customColumnDefs := Filter(customColumnDefs, (c: ColumnConfig) => c.key != key);
      }
    }

    /** `moveColumn`: swap with the neighbour above or below; nothing at either end. */
    method MoveColumn(index: int, up: bool)
      requires 0 <= index < |columnConfig|
      modifies this
      ensures multiset(columnConfig) == multiset(old(columnConfig))
      ensures up && index == 0 ==> columnConfig == old(columnConfig)
      ensures !up && index == |old(columnConfig)| - 1 ==> columnConfig == old(columnConfig)
      ensures up && index > 0 ==>
        columnConfig == old(columnConfig)[index - 1 := old(columnConfig)[index]][index := old(columnConfig)[index - 1]]
      ensures !up && index < |old(columnConfig)| - 1 ==>
        columnConfig == old(columnConfig)[index + 1 := old(columnConfig)[index]][index := old(columnConfig)[index + 1]]
      ensures customColumnDefs == old(customColumnDefs) && selected == old(selected)
      ensures sortConfig == old(sortConfig) && filters == old(filters) && newColumnName == old(newColumnName)
    {
      var cols := columnConfig;
      var other := if up then index - 1 else index + 1;
      if other < 0 || other >= |cols| {
        return;
      }
      cols := cols[other := columnConfig[index]][index := columnConfig[other]];
      SwapPermutes(columnConfig, index, other);
      columnConfig := cols;
    }

    /** `toggleColumnVisibility`: only the columns with that key flip. */
    method ToggleColumnVisibility(key: string)
      modifies this
      ensures |columnConfig| == |old(columnConfig)|
      ensures forall i :: 0 <= i < |columnConfig| ==>
        columnConfig[i] == (if old(columnConfig)[i].key == key
                            then old(columnConfig)[i].(visible := !old(columnConfig)[i].visible)
                            else old(columnConfig)[i])
      ensures customColumnDefs == old(customColumnDefs) && selected == old(selected)
      ensures sortConfig == old(sortConfig) && filters == old(filters) && newColumnName == old(newColumnName)
    {
      columnConfig := Map(columnConfig, (c: ColumnConfig) => if c.key == key then c.(visible := !c.visible) else c);
    }

    /** The header checkbox (`toggleSelectAll`), with the intended test. */
    method ToggleSelectAll(rows: seq<Deal>)
      modifies this
      ensures selected == SelectAll(old(selected), rows)
      ensures columnConfig == old(columnConfig) && customColumnDefs == old(customColumnDefs)
      ensures sortConfig == old(sortConfig) && filters == old(filters) && newColumnName == old(newColumnName)
    {
      selected := SelectAll(selected, rows);
    }

    /** `toggleSelectRow`: only that id changes membership. */
    method ToggleSelectRow(id: string)
      modifies this
      ensures id in selected <==> id !in old(selected)
      ensures forall x :: x != id ==> (x in selected <==> x in old(selected))
      ensures columnConfig == old(columnConfig) && customColumnDefs == old(customColumnDefs)
      ensures sortConfig == old(sortConfig) && filters == old(filters) && newColumnName == old(newColumnName)
    {
      if id in selected {
        selected := selected - {id};
      } else {
        selected := selected + {id};
      }
    }

    /**
     * `handleFieldChange`: the ids the edit is sent for. On a selected row it
     * goes to the whole selection once confirmed (nothing otherwise); on
     * another row to that row alone.
     */
    method FieldChangeTargets(dealId: string, confirmed: bool) returns (targets: Option<set<string>>)
      ensures dealId in selected && confirmed ==> targets == Some(selected)
      ensures dealId in selected && !confirmed ==> targets.None?
      ensures dealId !in selected ==> targets == Some({dealId})
    {
      if dealId in selected {
        targets := if confirmed then Some(selected) else None;
      } else {
        targets := Some({dealId});
      }
    }

    /** `handleCustomFieldChange`: the edited field set of the row's deal, for the same targets; nothing for an unknown deal. */
    method CustomFieldChange(deals: seq<Deal>, dealId: string, field: string, value: string, confirmed: bool)
      returns (update: Option<(set<string>, seq<(string, string)>)>)
      ensures FindDeal(deals, dealId).None? ==> update.None?
      ensures update.Some? ==>
        (FindDeal(deals, dealId).Some?
         && update.value.1 == EditedFields(FindDeal(deals, dealId).value, field, value)
         && (dealId in selected ==> confirmed && update.value.0 == selected)
         && (dealId !in selected ==> update.value.0 == {dealId}))
      ensures FindDeal(deals, dealId).Some? && (dealId !in selected || confirmed) ==> update.Some?
    {
      var deal := FindDeal(deals, dealId);
      if deal.None? {
        return None;
      }
      var fields := EditedFields(deal.value, field, value);
      var targets := FieldChangeTargets(dealId, confirmed);
      if targets.None? {
        return None;
      }
      return Some((targets.value, fields));
    }

    method Sort(key: string)
      modifies this
      ensures sortConfig == NextSort(old(sortConfig), key)
      ensures columnConfig == old(columnConfig) && customColumnDefs == old(customColumnDefs)
      ensures selected == old(selected) && filters == old(filters) && newColumnName == old(newColumnName)
    {
      sortConfig := NextSort(sortConfig, key);
    }

    /** `handleFilterChange`. */
    method FilterChange(key: string, value: string)
      modifies this
      ensures filters == SetEntry(old(filters), key, value)
      ensures columnConfig == old(columnConfig) && customColumnDefs == old(customColumnDefs)
      ensures selected == old(selected) && sortConfig == old(sortConfig) && newColumnName == old(newColumnName)
    {
      filters := SetEntry(filters, key, value);
    }

    method ToggleOption(key: string, option: string)
      modifies this
      ensures filters == ToggleFilterOption(old(filters), key, option)
      ensures columnConfig == old(columnConfig) && customColumnDefs == old(customColumnDefs)
      ensures selected == old(selected) && sortConfig == old(sortConfig) && newColumnName == old(newColumnName)
    {
      filters := ToggleFilterOption(filters, key, option);
    }
  }

  lemma SwapPermutes<T>(s: seq<T>, i: int, j: int)
    requires 0 <= i < |s| && 0 <= j < |s|
    ensures multiset(s[j := s[i]][i := s[j]]) == multiset(s)
  {
    if i != j {
      var t := s[j := s[i]];
      assert multiset(t) == multiset(s) - multiset{s[j]} + multiset{s[i]};
      assert multiset(t[i := s[j]]) == multiset(t) - multiset{t[i]} + multiset{s[j]};
    }
  }

  /** Deleting a custom definition leaves its column configured: the sync effect never removes a column. */
  lemma DeletedColumnStays(config: seq<ColumnConfig>, defs: seq<ColumnConfig>, key: string)
    requires HasColumn(config, key)
    ensures HasColumn(SyncCustom(config, Filter(defs, (c: ColumnConfig) => c.key != key)), key)
  {
    var r := SyncCustom(config, Filter(defs, (c: ColumnConfig) => c.key != key));
    var i :| 0 <= i < |config| && config[i].key == key;
    assert r[i] == config[i];
  }
}
