/** `NotificationTypeService`: the list of notification types (the value of
    its subject), the `notification_types` and `notification_values`
    tables it reads and writes, value validation, and the mapping between
    stored values and form controls. */
module NotificationTypeService {
  import opened Wrappers
  import opened ControlMapping
  import Seqs

  /** A row of `notification_types`. */
  datatype TypeRow = TypeRow(id: int, key: string, name: string, description: string, icon: string, color: string,
                             isEnabled: int, requiresValue: int, valueLabel: Option<string>,
                             validationPattern: Option<string>, validationError: Option<string>, orderNum: int)

  datatype NotificationType = NotificationType(id: int, key: string, name: string, description: string,
                                               icon: string, color: string, isEnabled: bool, requiresValue: bool,
                                               valueLabel: Option<string>, validationPattern: Option<string>,
                                               validationError: Option<string>, order: int)

  /** A row of `notification_values`. */
  datatype ValueRow = ValueRow(typeKey: string, value: string)

  /** The conversion applied to each loaded row: the two flags are true
      exactly when the column holds 1, and `order` is `order_num`. */
  function FromRow(row: TypeRow): (t: NotificationType)
    ensures t.isEnabled <==> row.isEnabled == 1
    ensures t.requiresValue <==> row.requiresValue == 1
    ensures t.order == row.orderNum
    ensures t.id == row.id && t.key == row.key && t.name == row.name && t.description == row.description
    ensures t.icon == row.icon && t.color == row.color && t.valueLabel == row.valueLabel
    ensures t.validationPattern == row.validationPattern && t.validationError == row.validationError
  {
    NotificationType(row.id, row.key, row.name, row.description, row.icon, row.color,
                     row.isEnabled == 1, row.requiresValue == 1, row.valueLabel,
                     row.validationPattern, row.validationError, row.orderNum)
  }

  /** `ORDER BY order_num` */
  predicate ByOrderNum(a: TypeRow, b: TypeRow) {
    a.orderNum <= b.orderNum
  }

  /** JavaScript truthiness of an optional string. */
  predicate Present(s: Option<string>) {
    s.Some? && s.value != ""
  }

  /** `validateNotificationValue`; `matches(pattern, value)` is the regular
      expression test. A type that needs no value accepts anything; one that
      needs a value rejects the empty string, accepts anything else when it
      has no pattern, and otherwise defers to the pattern. */
  function ValidateNotificationValue(t: NotificationType, value: string, matches: (string, string) -> bool): (ok: bool)
    ensures !t.requiresValue ==> ok
    ensures t.requiresValue && value == "" ==> !ok
    ensures t.requiresValue && value != "" && !Present(t.validationPattern) ==> ok
    ensures t.requiresValue && value != "" && Present(t.validationPattern) ==> ok == matches(t.validationPattern.value, value)
  {
    if !t.requiresValue then true
    else if value == "" then false
    else if !Present(t.validationPattern) then true
    else matches(t.validationPattern.value, value)
  }

  /** Whatever the pattern, an accepted value for a type that needs one is
      non-empty. */
  lemma AcceptedValueIsNonEmpty(t: NotificationType, value: string, matches: (string, string) -> bool)
    requires t.requiresValue && ValidateNotificationValue(t, value, matches)
    ensures value != ""
  {
  }

  /** `getEnabledNotificationTypes`: the enabled types. */
  function EnabledTypes(types: seq<NotificationType>): (r: seq<NotificationType>)
    ensures forall i :: 0 <= i < |r| ==> r[i].isEnabled && r[i] in types
    ensures forall i :: 0 <= i < |types| && types[i].isEnabled ==> types[i] in r
  {
    Seqs.Filter((t: NotificationType) => t.isEnabled, types)
  }

  /** The enabled types keep their order: the filter distributes over
      concatenation and keeps or drops each single type. */
  lemma EnabledTypesKeepOrder(a: seq<NotificationType>, b: seq<NotificationType>, t: NotificationType)
    ensures EnabledTypes(a + b) == EnabledTypes(a) + EnabledTypes(b)
    ensures EnabledTypes([t]) == if t.isEnabled then [t] else []
  {
    Seqs.FilterConcat((t: NotificationType) => t.isEnabled, a, b);
  }

  /** The local-state update of `updateNotificationType`. */
  function WithEnabled(types: seq<NotificationType>, key: string, enabled: bool): (r: seq<NotificationType>)
    ensures |r| == |types|
    ensures forall i :: 0 <= i < |types| && types[i].key == key ==> r[i] == types[i].(isEnabled := enabled)
    ensures forall i :: 0 <= i < |types| && types[i].key != key ==> r[i] == types[i]
  {
    seq(|types|, i requires 0 <= i < |types| => if types[i].key == key then types[i].(isEnabled := enabled) else types[i])
  }

  // ---------------------------------------------------------------------
  // Stored values and form settings

  /** Whether a stored value sets form control `c`. */
  predicate Sets(row: ValueRow, c: string) {
    c != "" && ControlName(row.typeKey) == c && row.value != ""
  }

  /** One step of the `reduce` of `getNotificationSettings`: a row whose
      key has a control and whose value is non-empty sets that control. */
  function Apply(acc: map<string, string>, row: ValueRow): map<string, string> {
    var c := ControlName(row.typeKey);
    if c != "" && row.value != "" then acc[c := row.value] else acc
  }

  lemma ApplySets(acc: map<string, string>, row: ValueRow, c: string)
    requires Sets(row, c)
    ensures c in Apply(acc, row) && Apply(acc, row)[c] == row.value
  {
  }

  lemma ApplyKeeps(acc: map<string, string>, row: ValueRow, c: string)
    requires !Sets(row, c)
    ensures c in Apply(acc, row) <==> c in acc
    ensures c in acc ==> Apply(acc, row)[c] == acc[c]
  {
  }

  /** The `reduce` of `getNotificationSettings`: the rows applied in order,
      so later rows overwrite earlier ones. */
  function Settings(rows: seq<ValueRow>): map<string, string>
    decreases |rows|
  {
    if |rows| == 0 then map[] else Apply(Settings(rows[..|rows| - 1]), rows[|rows| - 1])
  }

  /** Settings only ever name the four controls, each with a non-empty
      value. */
  lemma {:induction false} SettingsDomain(rows: seq<ValueRow>)
    ensures forall c :: c in Settings(rows) ==> c in CONTROL_NAMES && Settings(rows)[c] != ""
    decreases |rows|
  {
    if |rows| > 0 {
      SettingsDomain(rows[..|rows| - 1]);
    }
  }

  /** A control is set exactly when some row sets it, and then to the value
      of the last such row. */
  lemma {:induction false} SettingsLastWins(rows: seq<ValueRow>, c: string, i: int)
    requires 0 <= i < |rows| && Sets(rows[i], c)
    requires forall j :: i < j < |rows| ==> !Sets(rows[j], c)
    ensures c in Settings(rows) && Settings(rows)[c] == rows[i].value
    decreases |rows|
  {
    var n := |rows| - 1;
    var prefix := rows[..n];
    if i < n {
      assert prefix[i] == rows[i];
      forall j | i < j < |prefix| ensures !Sets(prefix[j], c) {
        assert prefix[j] == rows[j];
      }
      SettingsLastWins(prefix, c, i);
      ApplyKeeps(Settings(prefix), rows[n], c);
    } else {
      ApplySets(Settings(prefix), rows[n], c);
    }
  }

  lemma {:induction false} SettingsUnset(rows: seq<ValueRow>, c: string)
    requires forall j :: 0 <= j < |rows| ==> !Sets(rows[j], c)
    ensures c !in Settings(rows)
    decreases |rows|
  {
    if |rows| > 0 {
      var n := |rows| - 1;
      forall j | 0 <= j < n ensures !Sets(rows[..n][j], c) {
        assert rows[..n][j] == rows[j];
      }
      SettingsUnset(rows[..n], c);
      ApplyKeeps(Settings(rows[..n]), rows[n], c);
    }
  }

  /** Rows written before the last row setting a control do not matter. */
  lemma SettingsAfter(before: seq<ValueRow>, rows: seq<ValueRow>, c: string, j: int)
    requires 0 <= j < |rows| && Sets(rows[j], c)
    requires forall j' :: j < j' < |rows| ==> !Sets(rows[j'], c)
    ensures c in Settings(before + rows) && Settings(before + rows)[c] == rows[j].value
  {
    var all := before + rows;
    assert all[|before| + j] == rows[j];
    forall j' | |before| + j < j' < |all| ensures !Sets(all[j'], c) {
      assert all[j'] == rows[j' - |before|];
    }
    SettingsLastWins(all, c, |before| + j);
  }

  /** The controls to save and their type keys: each enabled key that has a
      control. */
  function TypeKeys(enabledKeys: seq<string>): (m: map<string, string>)
    ensures forall c :: c in m ==> c != "" && ControlName(m[c]) == c && m[c] in enabledKeys
    ensures forall i :: 0 <= i < |enabledKeys| && ControlName(enabledKeys[i]) != "" ==>
              ControlName(enabledKeys[i]) in m
    decreases |enabledKeys|
  {
    if |enabledKeys| == 0 then map[]
    else
      var acc := TypeKeys(enabledKeys[..|enabledKeys| - 1]);
      var key := enabledKeys[|enabledKeys| - 1];
      var c := ControlName(key);
      if c != "" then acc[c := key] else acc
  }

  /** The rows the insert loop writes: one per setting whose control maps
      to an enabled type and whose value is non-empty, in setting order. */
  function RowsToInsert(typeKeys: map<string, string>, settings: seq<(string, string)>): (r: seq<ValueRow>)
    ensures forall i :: 0 <= i < |r| ==> r[i].value != "" && r[i].typeKey in typeKeys.Values
    decreases |settings|
  {
    if |settings| == 0 then []
    else
      var rest := RowsToInsert(typeKeys, settings[..|settings| - 1]);
      var (c, v) := settings[|settings| - 1];
      if c in typeKeys && typeKeys[c] != "" && v != "" then rest + [ValueRow(typeKeys[c], v)] else rest
  }

  /** A row is inserted for a setting and control exactly when the setting
      names that control. */
  lemma RowsToInsertSets(typeKeys: map<string, string>, settings: seq<(string, string)>, c: string)
    requires forall d :: d in typeKeys ==> d != "" && ControlName(typeKeys[d]) == d
    ensures forall j :: 0 <= j < |RowsToInsert(typeKeys, settings)| && Sets(RowsToInsert(typeKeys, settings)[j], c) ==>
              exists i :: 0 <= i < |settings| && settings[i].0 == c && settings[i].1 == RowsToInsert(typeKeys, settings)[j].value
  {
    forall j | 0 <= j < |RowsToInsert(typeKeys, settings)| && Sets(RowsToInsert(typeKeys, settings)[j], c)
      ensures exists i :: 0 <= i < |settings| && settings[i].0 == c && settings[i].1 == RowsToInsert(typeKeys, settings)[j].value
    {
      RowsToInsertSetsAt(typeKeys, settings, c, j);
    }
  }

  /** The same for one inserted row `j`. */
  lemma {:induction false} RowsToInsertSetsAt(typeKeys: map<string, string>, settings: seq<(string, string)>, c: string, j: int)
    requires forall d :: d in typeKeys ==> d != "" && ControlName(typeKeys[d]) == d
    requires 0 <= j < |RowsToInsert(typeKeys, settings)| && Sets(RowsToInsert(typeKeys, settings)[j], c)
    ensures exists i :: 0 <= i < |settings| && settings[i].0 == c && settings[i].1 == RowsToInsert(typeKeys, settings)[j].value
    decreases |settings|
  {
    var n := |settings| - 1;
    var r := RowsToInsert(typeKeys, settings);
    var rest := RowsToInsert(typeKeys, settings[..n]);
    if j < |rest| {
      assert r[j] == rest[j];
      RowsToInsertSetsAt(typeKeys, settings[..n], c, j);
      var i :| 0 <= i < n && settings[..n][i].0 == c && settings[..n][i].1 == r[j].value;
      assert settings[i] == settings[..n][i];
    } else {
      var (d, v) := settings[n];
      assert r[j] == ValueRow(typeKeys[d], v);
      assert settings[n].0 == c;
    }
  }

  /** The row inserted for the last setting naming a control is the last
      inserted row that sets it. */
  lemma {:induction false} RowsToInsertLast(typeKeys: map<string, string>, settings: seq<(string, string)>, k: int)
    requires forall d :: d in typeKeys ==> d != "" && ControlName(typeKeys[d]) == d
    requires 0 <= k < |settings| && settings[k].0 in typeKeys && settings[k].1 != ""
    requires forall i :: 0 <= i < |settings| && i != k ==> settings[i].0 != settings[k].0
    ensures exists j :: 0 <= j < |RowsToInsert(typeKeys, settings)|
              && RowsToInsert(typeKeys, settings)[j] == ValueRow(typeKeys[settings[k].0], settings[k].1)
              && Sets(RowsToInsert(typeKeys, settings)[j], settings[k].0)
              && forall j' :: j < j' < |RowsToInsert(typeKeys, settings)| ==> !Sets(RowsToInsert(typeKeys, settings)[j'], settings[k].0)
    decreases |settings|
  {
    var n := |settings| - 1;
    var c := settings[k].0;
    var r := RowsToInsert(typeKeys, settings);
    var rest := RowsToInsert(typeKeys, settings[..n]);
    if k == n {
      var j := |r| - 1;
      assert r[j] == ValueRow(typeKeys[c], settings[k].1);
    } else {
      RowsToInsertLast(typeKeys, settings[..n], k);
      var j :| 0 <= j < |rest| && rest[j] == ValueRow(typeKeys[c], settings[k].1) && Sets(rest[j], c)
                && forall j' :: j < j' < |rest| ==> !Sets(rest[j'], c);
      assert r[j] == rest[j];
      forall j' | j < j' < |r| ensures !Sets(r[j'], c) {
        if j' >= |rest| {
          var (d, v) := settings[n];
          assert d != c;
          assert r[j'] == ValueRow(typeKeys[d], v);
        } else {
          assert r[j'] == rest[j'];
        }
      }
    }
  }

  /** The enabled keys, as `SELECT key FROM notification_types WHERE
      isEnabled = 1` returns them. */
  function EnabledKeys(rows: seq<TypeRow>): (keys: seq<string>)
    ensures forall k :: k in keys <==> exists j :: 0 <= j < |rows| && rows[j].isEnabled == 1 && rows[j].key == k
    decreases |rows|
  {
    if |rows| == 0 then []
    else
      var rest := EnabledKeys(rows[1..]);
      assert forall j :: 0 <= j < |rows[1..]| ==> rows[1..][j] == rows[j + 1];
      (if rows[0].isEnabled == 1 then [rows[0].key] else []) + rest
  }

  // ---------------------------------------------------------------------
  // The service

  class NotificationTypeService {
    var typeRows: seq<TypeRow>
    var valueRows: seq<ValueRow>
    var types: seq<NotificationType>

    constructor (typeRows: seq<TypeRow>, valueRows: seq<ValueRow>)
      ensures this.typeRows == typeRows && this.valueRows == valueRows
      ensures types == LoadedTypes(typeRows)
    {
      this.typeRows := typeRows;
      this.valueRows := valueRows;
      types := [];
      new;
      LoadNotificationTypes();
    }

    static function LoadedTypes(rows: seq<TypeRow>): (r: seq<NotificationType>)
      ensures |r| == |rows|
    {
      var sorted := Seqs.SortBy(ByOrderNum, rows);
      seq(|sorted|, i requires 0 <= i < |sorted| => FromRow(sorted[i]))
    }

    /** Reads the types ordered by `order_num` and publishes them. */
    method LoadNotificationTypes()
      modifies this`types
      ensures types == LoadedTypes(typeRows)
    {
      var sorted := Seqs.SortBy(ByOrderNum, typeRows);
      var loaded: seq<NotificationType> := [];
      for i := 0 to |sorted|
        invariant loaded == seq(i, k requires 0 <= k < i => FromRow(sorted[k]))
      {
        loaded := loaded + [FromRow(sorted[i])];
      }
      types := loaded;
    }

    /** `updateNotificationType`: writes the flag for the key and updates
        the published list the same way. */
    method UpdateNotificationType(key: string, enabled: bool)
      modifies this`typeRows, this`types
      ensures |typeRows| == |old(typeRows)|
      ensures forall i :: 0 <= i < |typeRows| ==>
                typeRows[i] == if old(typeRows)[i].key == key then old(typeRows)[i].(isEnabled := if enabled then 1 else 0)
                               else old(typeRows)[i]
      ensures types == WithEnabled(old(types), key, enabled)
    {
      var flag := if enabled then 1 else 0;
      var i := 0;
      while i < |typeRows|
        invariant 0 <= i <= |typeRows| == |old(typeRows)|
        invariant forall k :: 0 <= k < i ==>
                    typeRows[k] == if old(typeRows)[k].key == key then old(typeRows)[k].(isEnabled := flag) else old(typeRows)[k]
        invariant forall k :: i <= k < |typeRows| ==> typeRows[k] == old(typeRows)[k]
        invariant types == old(types)
      {
        if typeRows[i].key == key {
          typeRows := typeRows[i := typeRows[i].(isEnabled := flag)];
        }
        i := i + 1;
      }
      types := WithEnabled(types, key, enabled);
    }

    /** `getNotificationSettings` */
    function GetNotificationSettings(): (m: map<string, string>)
      reads this
      ensures forall c :: c in m ==> c in CONTROL_NAMES && m[c] != ""
    {
      SettingsDomain(valueRows);
      Settings(valueRows)
    }

    /** `saveNotificationSettings`: deletes the stored values of every
        enabled type, then inserts one row per setting (control name, value)
        whose control belongs to an enabled type and whose value is
        non-empty. */
    method SaveNotificationSettings(settings: seq<(string, string)>)
      modifies this`valueRows
      ensures var keys := EnabledKeys(typeRows);
              valueRows == Seqs.Filter((r: ValueRow) => r.typeKey !in keys, old(valueRows))
                           + RowsToInsert(TypeKeys(keys), settings)
    {
      var enabledKeys := EnabledKeys(typeRows);
      var typeKeys := BuildTypeKeys(enabledKeys);
      valueRows := Seqs.Filter((r: ValueRow) => r.typeKey !in enabledKeys, valueRows);
      InsertValues(typeKeys, settings);
    }

    /** The `forEach` that maps control names to enabled type keys. */
    static method BuildTypeKeys(enabledKeys: seq<string>) returns (typeKeys: map<string, string>)
      ensures typeKeys == TypeKeys(enabledKeys)
    {
      typeKeys := map[];
      for i := 0 to |enabledKeys|
        invariant typeKeys == TypeKeys(enabledKeys[..i])
      {
        assert enabledKeys[..i + 1][..i] == enabledKeys[..i];
        var controlName := ControlName(enabledKeys[i]);
        if controlName != "" {
          typeKeys := typeKeys[controlName := enabledKeys[i]];
        }
      }
      assert enabledKeys[..|enabledKeys|] == enabledKeys;
    }

    /** The insert loop. */
    method InsertValues(typeKeys: map<string, string>, settings: seq<(string, string)>)
      modifies this`valueRows
      ensures valueRows == old(valueRows) + RowsToInsert(typeKeys, settings)
    {
      for i := 0 to |settings|
        invariant valueRows == old(valueRows) + RowsToInsert(typeKeys, settings[..i])
      {
        assert settings[..i + 1][..i] == settings[..i];
        var (controlName, value) := settings[i];
        if controlName in typeKeys && typeKeys[controlName] != "" && value != "" {
          valueRows := valueRows + [ValueRow(typeKeys[controlName], value)];
        }
      }
      assert settings[..|settings|] == settings;
    }
  }

  /** What is saved is what is read back: after saving settings with
      distinct control names, every setting whose control belongs to an
      enabled type and whose value is non-empty is returned by
      `getNotificationSettings` with that value. */
  lemma SaveThenGet(enabledKeys: seq<string>, before: seq<ValueRow>, settings: seq<(string, string)>, k: int)
    requires 0 <= k < |settings|
    requires forall i :: 0 <= i < |settings| && i != k ==> settings[i].0 != settings[k].0
    requires settings[k].0 in CONTROL_NAMES && TypeKey(settings[k].0) in enabledKeys && settings[k].1 != ""
    ensures var after := Seqs.Filter((r: ValueRow) => r.typeKey !in enabledKeys, before)
                         + RowsToInsert(TypeKeys(enabledKeys), settings);
            settings[k].0 in Settings(after) && Settings(after)[settings[k].0] == settings[k].1
  {
    var c := settings[k].0;
    var typeKeys := TypeKeys(enabledKeys);
    var kept := Seqs.Filter((r: ValueRow) => r.typeKey !in enabledKeys, before);
    var inserted := RowsToInsert(typeKeys, settings);
    var i :| 0 <= i < |enabledKeys| && enabledKeys[i] == TypeKey(c);
    MappingsInverse(TypeKey(c), c);
    assert c in typeKeys;
    RowsToInsertLast(typeKeys, settings, k);
    var j :| 0 <= j < |inserted| && inserted[j] == ValueRow(typeKeys[c], settings[k].1) && Sets(inserted[j], c)
              && forall j' :: j < j' < |inserted| ==> !Sets(inserted[j'], c);
    SettingsAfter(kept, inserted, c, j);
  }
}
