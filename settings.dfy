// SettingsService: application settings kept as (key, tab) rows, read back
// through a map keyed "key:tab" and written with an upsert.

module SettingsService {
  import opened JavaStr
  import Model

  /** A row of the settings table; (paramKey, paramTab) is unique. */
  datatype SettingEntity = SettingEntity(
    id: string, paramKey: string, paramValue: Option<string>, paramTab: string,
    paramType: Option<string>, description: Option<string>)

  /** The key loadSettingsMap files a row under. */
  function CompositeKey(s: SettingEntity): string
  {
    s.paramKey + ":" + s.paramTab
  }

  /** The table's unique constraint on (param_key, param_tab). */
  predicate UniquePairs(rows: seq<SettingEntity>)
  {
    forall i, j :: 0 <= i < j < |rows| ==>
      !(rows[i].paramKey == rows[j].paramKey && rows[i].paramTab == rows[j].paramTab)
  }

  // ---------------------------------------------------------------- loadSettingsMap

  /** The map loadSettingsMap builds: every row under its composite key, a later row replacing an earlier one. */
  function SettingsMap(rows: seq<SettingEntity>): map<string, SettingEntity>
  {
    if rows == [] then map[] else SettingsMap(rows[..|rows| - 1])[CompositeKey(rows[|rows| - 1]) := rows[|rows| - 1]]
  }

  /** Every row's key is in the map, and every entry of the map is a row filed under its own key. */
  lemma {:induction false} SettingsMapEntries(rows: seq<SettingEntity>)
    ensures forall i :: 0 <= i < |rows| ==> CompositeKey(rows[i]) in SettingsMap(rows)
    ensures forall k :: k in SettingsMap(rows) ==>
              exists i :: 0 <= i < |rows| && rows[i] == SettingsMap(rows)[k] && CompositeKey(rows[i]) == k
    decreases |rows|
  {
    if rows != [] {
      var init := rows[..|rows| - 1];
      SettingsMapEntries(init);
      assert forall i :: 0 <= i < |init| ==> init[i] == rows[i];
    }
  }

  /** The loop of loadSettingsMap. */
  method LoadSettingsMap(rows: seq<SettingEntity>) returns (m: map<string, SettingEntity>)
    ensures m == SettingsMap(rows)
  {
    m := map[];
    var i := 0;
    while i < |rows|
      invariant 0 <= i <= |rows|
      invariant m == SettingsMap(rows[..i])
    {
      assert rows[..i + 1][..i] == rows[..i];
      m := m[CompositeKey(rows[i]) := rows[i]];
      i := i + 1;
    }
    assert rows[..i] == rows;
  }

  // ---------------------------------------------------------------- lookups

  /** An iteration order of the map's key set: each key once. */
  predicate KeyOrder(m: map<string, SettingEntity>, order: seq<string>)
  {
    (forall k :: k in m ==> k in order) && (forall k :: k in order ==> k in m)
    && forall i, j :: 0 <= i < j < |order| ==> order[i] != order[j]
  }

  /**
   * getStringValue: the value under the first key, in iteration order, that
   * starts with key + ":"; the default when that value is null or no key
   * matches.
   */
  function StringValue(m: map<string, SettingEntity>, order: seq<string>, key: string, default: string): string
  {
    if order == [] then default
    else if StartsWith(order[0], key + ":") then
      if order[0] in m && m[order[0]].paramValue.Some? then m[order[0]].paramValue.value else default
    else StringValue(m, order[1..], key, default)
  }

  /** The loop of getStringValue over the key set. */
  method GetStringValue(m: map<string, SettingEntity>, order: seq<string>, key: string, default: string) returns (r: string)
    requires KeyOrder(m, order)
    ensures r == StringValue(m, order, key, default)
  {
    var i := 0;
    while i < |order|
      invariant 0 <= i <= |order|
      invariant StringValue(m, order, key, default) == StringValue(m, order[i..], key, default)
    {
      var mapKey := order[i];
      assert order[i..][1..] == order[i + 1..];
      if StartsWith(mapKey, key + ":") {
        var setting := m[mapKey];
        return if setting.paramValue.Some? then setting.paramValue.value else default;
      }
      i := i + 1;
    }
    return default;
  }

  predicate NoMatch(m: map<string, SettingEntity>, key: string)
  {
    forall k :: k in m ==> !StartsWith(k, key + ":")
  }

  /** Without a matching key the default comes back, in any iteration order. */
  lemma {:induction false} StringValueDefault(m: map<string, SettingEntity>, order: seq<string>, key: string, default: string)
    requires KeyOrder(m, order) && NoMatch(m, key)
    ensures StringValue(m, order, key, default) == default
  {
    StringValueAbsent(m, order, key, default);
  }

  lemma {:induction false} StringValueAbsent(m: map<string, SettingEntity>, order: seq<string>, key: string, default: string)
    requires forall i :: 0 <= i < |order| ==> order[i] in m
    requires NoMatch(m, key)
    ensures StringValue(m, order, key, default) == default
    decreases |order|
  {
    if order != [] {
      StringValueAbsent(m, order[1..], key, default);
    }
  }

  /**
   * With exactly one matching key the lookup gives that entry's value (or
   * the default when it is null), whatever the iteration order.
   */
  lemma {:induction false} StringValueUnique(m: map<string, SettingEntity>, order: seq<string>, key: string, default: string, k: string)
    requires forall i :: 0 <= i < |order| ==> order[i] in m
    requires k in order && StartsWith(k, key + ":")
    requires forall x :: x in m && StartsWith(x, key + ":") ==> x == k
    ensures StringValue(m, order, key, default) == if m[k].paramValue.Some? then m[k].paramValue.value else default
    decreases |order|
  {
    if order[0] != k {
      assert k in order[1..];
      StringValueUnique(m, order[1..], key, default, k);
    }
  }

  /** getIntValue: Integer.parseInt of the looked-up text, the default when it is no int. */
  function IntValue(m: map<string, SettingEntity>, order: seq<string>, key: string, default: int): int
  {
    match ParseInt(StringValue(m, order, key, IntToString(default)))
      case Some(v) => v
      case None => default
  }

  /** String.valueOf(Boolean). */
  function BoolString(b: bool): string
  {
    if b then "true" else "false"
  }

  /** Boolean.parseBoolean of a non-null string. */
  predicate ParseBoolean(s: string)
  {
    EqualsIgnoreCase(s, "true")
  }

  lemma ParseBooleanOfBoolString(b: bool)
    ensures ParseBoolean(BoolString(b)) == b
  {
    if !b {
      assert Upper("false")[0] == 'F';
    }
  }

  /** getBoolValue: Boolean.parseBoolean of the looked-up text. */
  predicate BoolValue(m: map<string, SettingEntity>, order: seq<string>, key: string, default: bool)
  {
    ParseBoolean(StringValue(m, order, key, BoolString(default)))
  }

  /** Without a matching key each lookup gives its default; an int default comes back through its text. */
  lemma ValuesDefault(m: map<string, SettingEntity>, order: seq<string>, key: string, s: string, i: int, b: bool)
    requires KeyOrder(m, order) && NoMatch(m, key) && INT_MIN <= i <= INT_MAX
    ensures StringValue(m, order, key, s) == s
    ensures IntValue(m, order, key, i) == i
    ensures BoolValue(m, order, key, b) == b
  {
    StringValueDefault(m, order, key, s);
    StringValueDefault(m, order, key, IntToString(i));
    StringValueDefault(m, order, key, BoolString(b));
    ParseIntOfIntToString(i);
    ParseBooleanOfBoolString(b);
  }

  /** A single stored value reads as its int, or as the default when it is no int. */
  lemma IntValueStored(m: map<string, SettingEntity>, order: seq<string>, key: string, default: int, k: string)
    requires forall i :: 0 <= i < |order| ==> order[i] in m
    requires k in order && StartsWith(k, key + ":") && m[k].paramValue.Some?
    requires forall x :: x in m && StartsWith(x, key + ":") ==> x == k
    ensures IntValue(m, order, key, default) == match ParseInt(m[k].paramValue.value) case Some(v) => v case None => default
  {
    StringValueUnique(m, order, key, IntToString(default), k);
  }

  /**
   * A stored value that is not "true" in any case reads as false, even with
   * the default true; "true" in any case reads as true.
   */
  lemma BoolValueStored(m: map<string, SettingEntity>, order: seq<string>, key: string, default: bool, k: string)
    requires forall i :: 0 <= i < |order| ==> order[i] in m
    requires k in order && StartsWith(k, key + ":") && m[k].paramValue.Some?
    requires forall x :: x in m && StartsWith(x, key + ":") ==> x == k
    ensures BoolValue(m, order, key, default) <==> EqualsIgnoreCase(m[k].paramValue.value, "true")
  {
    StringValueUnique(m, order, key, BoolString(default), k);
  }

  // ---------------------------------------------------------------- getSettings

  /** getSettings over the loaded map, with each key's default. */
  function GetSettings(m: map<string, SettingEntity>, order: seq<string>): Model.AppSettings
  {
    Model.AppSettings(
      Some(IntValue(m, order, "parallelJobs", 4)), Some(IntValue(m, order, "batchSize", 1000)),
      Some(IntValue(m, order, "commitInterval", 10000)),
      Some(BoolValue(m, order, "smtpEnabled", false)), Some(StringValue(m, order, "smtpHost", "")),
      Some(IntValue(m, order, "smtpPort", 587)), Some(StringValue(m, order, "smtpUser", "")),
      Some(StringValue(m, order, "smtpPassword", "")), Some(StringValue(m, order, "smtpFromEmail", "")),
      Some(BoolValue(m, order, "notifyOnComplete", true)), Some(BoolValue(m, order, "notifyOnError", true)),
      Some(StringValue(m, order, "logLevel", "info")), Some(IntValue(m, order, "logRetentionDays", 30)),
      Some(BoolValue(m, order, "logToFile", false)), Some(StringValue(m, order, "logFilePath", "/var/log/ora2pg")),
      Some(BoolValue(m, order, "truncateTarget", false)), Some(BoolValue(m, order, "disableConstraints", false)),
      Some(BoolValue(m, order, "preserveSequences", true)), Some(BoolValue(m, order, "skipErrors", false)),
      Some(IntValue(m, order, "maxErrors", 100)), Some(BoolValue(m, order, "autoCommit", false)),
      Some(StringValue(m, order, "tableNameFilter", "")))
  }

  /** The settings of an empty store: every default. */
  lemma EmptyStoreDefaults()
    ensures var s := GetSettings(SettingsMap([]), []);
            s.parallelJobs == Some(4) && s.batchSize == Some(1000) && s.commitInterval == Some(10000)
            && s.smtpEnabled == Some(false) && s.smtpHost == Some("") && s.smtpPort == Some(587) && s.smtpUser == Some("")
            && s.smtpPassword == Some("") && s.smtpFromEmail == Some("") && s.notifyOnComplete == Some(true) && s.notifyOnError == Some(true)
            && s.logLevel == Some("info") && s.logRetentionDays == Some(30) && s.logToFile == Some(false)
            && s.logFilePath == Some("/var/log/ora2pg")
            && s.truncateTarget == Some(false) && s.disableConstraints == Some(false) && s.preserveSequences == Some(true) && s.skipErrors == Some(false)
            && s.maxErrors == Some(100) && s.autoCommit == Some(false) && s.tableNameFilter == Some("")
  {
    ParseIntOfIntToString(4);
    ParseIntOfIntToString(1000);
    ParseIntOfIntToString(10000);
    ParseIntOfIntToString(587);
    ParseIntOfIntToString(30);
    ParseIntOfIntToString(100);
    ParseBooleanOfBoolString(true);
    ParseBooleanOfBoolString(false);
  }

  // ---------------------------------------------------------------- saveSetting

  /** findByParamKeyAndParamTab: the position of the row for (key, tab), if there is one. */
  function FindPair(rows: seq<SettingEntity>, key: string, tab: string): (r: Option<nat>)
    ensures r.Some? ==> r.value < |rows| && rows[r.value].paramKey == key && rows[r.value].paramTab == tab
    ensures r.None? ==> forall i :: 0 <= i < |rows| ==> !(rows[i].paramKey == key && rows[i].paramTab == tab)
  {
    if rows == [] then None
    else match FindPair(rows[..|rows| - 1], key, tab)
      case Some(i) => Some(i)
      case None =>
        if rows[|rows| - 1].paramKey == key && rows[|rows| - 1].paramTab == tab then Some(|rows| - 1) else None
  }

  /** saveSetting: the row for (key, tab) updated, or a new row with a fresh id appended. */
  function Upsert(rows: seq<SettingEntity>, key: string, value: Option<string>, tab: string,
                  paramType: string, description: string, freshId: string): seq<SettingEntity>
  {
    match FindPair(rows, key, tab)
      case Some(i) =>
        rows[i := rows[i].(paramKey := key, paramValue := value, paramTab := tab,
                           paramType := Some(paramType), description := Some(description))]
      case None => rows + [SettingEntity(freshId, key, value, tab, Some(paramType), Some(description))]
  }

  /**
   * After saveSetting the table is still unique on (key, tab), exactly one
   * row has the pair and it holds the new value, type and description; every
   * other pair's row is untouched.
   */
  lemma UpsertSetsOne(rows: seq<SettingEntity>, key: string, value: Option<string>, tab: string,
                      paramType: string, description: string, freshId: string)
    requires UniquePairs(rows)
    ensures var after := Upsert(rows, key, value, tab, paramType, description, freshId);
            UniquePairs(after)
            && (exists i :: 0 <= i < |after| && after[i].paramKey == key && after[i].paramTab == tab
                  && after[i].paramValue == value && after[i].paramType == Some(paramType)
                  && after[i].description == Some(description))
            && (forall i :: 0 <= i < |rows| && !(rows[i].paramKey == key && rows[i].paramTab == tab) ==> after[i] == rows[i])
            && |after| == |rows| + (if FindPair(rows, key, tab).Some? then 0 else 1)
  {
    var after := Upsert(rows, key, value, tab, paramType, description, freshId);
    match FindPair(rows, key, tab)
      case Some(k) =>
        assert after[k].paramKey == key && after[k].paramTab == tab;
      case None =>
        assert after[|rows|].paramKey == key && after[|rows|].paramTab == tab;
  }

  /** Keys other settings are filed under never look like key + ":" unless they are (key, tab). */
  predicate OnlyTab(rows: seq<SettingEntity>, key: string, tab: string)
  {
    forall i :: 0 <= i < |rows| && !(rows[i].paramKey == key && rows[i].paramTab == tab) ==>
      !StartsWith(CompositeKey(rows[i]), key + ":")
  }

  lemma PrefixOfKey(key: string, tab: string)
    ensures StartsWith(key + ":" + tab, key + ":")
  {
    PrefixOfAppend(key + ":", tab, |key + ":"|);
  }

  lemma UpsertOnlyTab(rows: seq<SettingEntity>, key: string, value: Option<string>, tab: string,
                      paramType: string, description: string, freshId: string)
    requires UniquePairs(rows) && OnlyTab(rows, key, tab)
    ensures OnlyTab(Upsert(rows, key, value, tab, paramType, description, freshId), key, tab)
  {
    var after := Upsert(rows, key, value, tab, paramType, description, freshId);
    UpsertSetsOne(rows, key, value, tab, paramType, description, freshId);
    forall j | 0 <= j < |after| && !(after[j].paramKey == key && after[j].paramTab == tab)
      ensures !StartsWith(CompositeKey(after[j]), key + ":")
    {
      assert j < |rows| && after[j] == rows[j];
    }
  }

  /** When only (key, tab) rows look like key + ":", the map has one such key, holding that row. */
  lemma SingleMatch(rows: seq<SettingEntity>, key: string, tab: string, i: nat)
    requires UniquePairs(rows) && OnlyTab(rows, key, tab)
    requires i < |rows| && rows[i].paramKey == key && rows[i].paramTab == tab
    ensures var m, k := SettingsMap(rows), key + ":" + tab;
            k in m && m[k] == rows[i] && StartsWith(k, key + ":")
            && forall x :: x in m && StartsWith(x, key + ":") ==> x == k
  {
    var m, k := SettingsMap(rows), key + ":" + tab;
    assert CompositeKey(rows[i]) == k;
    PrefixOfKey(key, tab);
    SettingsMapEntries(rows);
    forall x | x in m && StartsWith(x, key + ":")
      ensures x == k
    {
      var j :| 0 <= j < |rows| && rows[j] == m[x] && CompositeKey(rows[j]) == x;
      assert rows[j].paramKey == key && rows[j].paramTab == tab;
    }
    var j :| 0 <= j < |rows| && rows[j] == m[k] && CompositeKey(rows[j]) == k;
    assert rows[j].paramKey == key && rows[j].paramTab == tab;
    assert !(i < j || j < i);
  }

  /**
   * Saving a value and reading it back: when no other row's key starts with
   * key + ":", getStringValue finds the saved value (the default for null),
   * in any iteration order.
   */
  lemma SaveThenGet(rows: seq<SettingEntity>, key: string, value: Option<string>, tab: string,
                    paramType: string, description: string, freshId: string, order: seq<string>, default: string)
    requires UniquePairs(rows) && OnlyTab(rows, key, tab)
    requires KeyOrder(SettingsMap(Upsert(rows, key, value, tab, paramType, description, freshId)), order)
    ensures StringValue(SettingsMap(Upsert(rows, key, value, tab, paramType, description, freshId)), order, key, default)
            == if value.Some? then value.value else default
  {
    var after := Upsert(rows, key, value, tab, paramType, description, freshId);
    UpsertSetsOne(rows, key, value, tab, paramType, description, freshId);
    UpsertOnlyTab(rows, key, value, tab, paramType, description, freshId);
    var i :| 0 <= i < |after| && after[i].paramKey == key && after[i].paramTab == tab && after[i].paramValue == value;
    SingleMatch(after, key, tab, i);
    StringValueUnique(SettingsMap(after), order, key, default, key + ":" + tab);
  }

  /** The settings table, which saveSetting writes through the repository. */
  class SettingsStore {
    var settings: seq<SettingEntity>

    predicate Valid()
      reads this
    {
      UniquePairs(settings)
    }

    constructor ()
      ensures settings == [] && Valid()
    {
      settings := [];
    }

    /** saveSetting(key, value, tab, type, description); freshId is the UUID a new row is given. */
    method SaveSetting(key: string, value: Option<string>, tab: string, paramType: string, description: string, freshId: string)
      requires Valid()
      modifies this
      ensures Valid()
      ensures settings == Upsert(old(settings), key, value, tab, paramType, description, freshId)
    {
      UpsertSetsOne(settings, key, value, tab, paramType, description, freshId);
      match FindPair(settings, key, tab)
      case Some(i) =>
        var setting := settings[i].(paramKey := key, paramValue := value, paramTab := tab,
                                    paramType := Some(paramType), description := Some(description));
        settings := settings[i := setting];
      case None =>
        settings := settings + [SettingEntity(freshId, key, value, tab, Some(paramType), Some(description))];
    }
  }
}
