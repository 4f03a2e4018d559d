/** The notification-types settings page: the set of enabled notification
    methods (at most three may be on), whether the extra value fields are
    shown, and which validators each form control carries. */
module NotificationTypesPage {
  import opened ControlMapping
  import opened Wrappers

  const MAX_ENABLED := 3

  const PHONE_PATTERN := "^\\+?[1-9]\\d{1,14}$"
  const TELEGRAM_PATTERN := "^[a-zA-Z0-9_]{5,32}$"

  /** The form validators the page attaches. */
  datatype Validator = Required | Email | Pattern(pattern: string)

  /** `getValidatorsForType` */
  function ValidatorsForType(typeKey: string): (v: seq<Validator>)
    ensures v != [] <==> typeKey in MAPPED_KEYS
    ensures v != [] ==> v[0] == Required
  {
    match typeKey
    case "email" => [Required, Email]
    case "sms" => [Required, Pattern(PHONE_PATTERN)]
    case "whatsapp" => [Required, Pattern(PHONE_PATTERN)]
    case "telegram" => [Required, Pattern(TELEGRAM_PATTERN)]
    case _ => []
  }

  /** `getDefaultError` */
  function DefaultError(typeKey: string): (msg: string)
    ensures typeKey !in MAPPED_KEYS <==> msg == "Invalid value"
  {
    match typeKey
    case "email" => "Please enter a valid email address"
    case "sms" => "Please enter a valid phone number"
    case "whatsapp" => "Please enter a valid WhatsApp number"
    case "telegram" => "Please enter a valid Telegram username"
    case _ => "Invalid value"
  }

  /** The validators a control carries once the visibility update has run:
      those of its type when that type is enabled, none otherwise. */
  function ExpectedValidators(enabledTypes: set<string>, controlName: string): seq<Validator> {
    var typeKey := TypeKey(controlName);
    if typeKey != "" && typeKey in enabledTypes then ValidatorsForType(typeKey) else []
  }

  /** A control of the form carries validators exactly when its type is
      enabled. */
  lemma ValidatorsFollowEnabledSet(enabledTypes: set<string>, controlName: string)
    requires controlName in CONTROL_NAMES
    ensures ExpectedValidators(enabledTypes, controlName) != [] <==> TypeKey(controlName) in enabledTypes
  {
  }

  /** `ExpectedValidators` for a fixed enabled set, as a function of the
      control. */
  function ExpectedFor(enabledTypes: set<string>): string -> seq<Validator> {
    (c: string) => ExpectedValidators(enabledTypes, c)
  }

  /** The validators of the form after the controls `names` have been
      given, one after another, the validators `expected` calls for. */
  function Refreshed(m: map<string, seq<Validator>>, expected: string -> seq<Validator>, names: seq<string>): map<string, seq<Validator>>
    decreases |names|
  {
    if |names| == 0 then m
    else
      var last := names[|names| - 1];
      Refreshed(m, expected, names[..|names| - 1])[last := expected(last)]
  }

  /** Refreshing one more control updates just that control. */
  lemma RefreshedStep(m: map<string, seq<Validator>>, expected: string -> seq<Validator>, names: seq<string>, i: nat)
    requires i < |names|
    ensures Refreshed(m, expected, names[..i + 1]) == Refreshed(m, expected, names[..i])[names[i] := expected(names[i])]
  {
    assert names[..i + 1][..i] == names[..i];
  }

  /** The refreshed form keeps its controls; a refreshed control carries
      the validators it calls for, and every other one keeps its own. */
  lemma {:induction false} RefreshedSpec(m: map<string, seq<Validator>>, expected: string -> seq<Validator>, names: seq<string>)
    requires forall c :: c in names ==> c in m
    ensures Refreshed(m, expected, names).Keys == m.Keys
    ensures forall c :: c in m ==> Refreshed(m, expected, names)[c] == if c in names then expected(c) else m[c]
    decreases |names|
  {
    if |names| > 0 {
      var prefix := names[..|names| - 1];
      assert names == prefix + [names[|names| - 1]];
      assert forall c :: c in prefix ==> c in names;
      RefreshedSpec(m, expected, prefix);
    }
  }

  /** Refreshing all the form's controls gives each one exactly the
      validators its type calls for and leaves any other entry alone. */
  lemma RefreshedForm(m: map<string, seq<Validator>>, enabledTypes: set<string>)
    requires forall c :: c in CONTROL_NAMES ==> c in m
    ensures Refreshed(m, ExpectedFor(enabledTypes), CONTROL_NAMES).Keys == m.Keys
    ensures forall c :: c in CONTROL_NAMES ==>
      Refreshed(m, ExpectedFor(enabledTypes), CONTROL_NAMES)[c] == ExpectedValidators(enabledTypes, c)
    ensures forall c :: c in m && c !in CONTROL_NAMES ==> Refreshed(m, ExpectedFor(enabledTypes), CONTROL_NAMES)[c] == m[c]
  {
    RefreshedSpec(m, ExpectedFor(enabledTypes), CONTROL_NAMES);
  }

  /** The loop of `updateAdditionalFieldsVisibility`: each form control in
      turn gets its type's validators when that type is enabled and loses
      them otherwise. */
  method RefreshAll(validators: map<string, seq<Validator>>, enabledTypes: set<string>)
    returns (updated: map<string, seq<Validator>>)
    ensures updated == Refreshed(validators, ExpectedFor(enabledTypes), CONTROL_NAMES)
  {
    updated := validators;
    for i := 0 to |CONTROL_NAMES|
      invariant updated == Refreshed(validators, ExpectedFor(enabledTypes), CONTROL_NAMES[..i])
    {
      var controlName := CONTROL_NAMES[i];
      var typeKey := TypeKey(controlName);
      if typeKey != "" && typeKey in enabledTypes {
        updated := updated[controlName := ValidatorsForType(typeKey)];
      } else {
        updated := updated[controlName := []];
      }
      RefreshedStep(validators, ExpectedFor(enabledTypes), CONTROL_NAMES, i);
    }
    assert CONTROL_NAMES[..|CONTROL_NAMES|] == CONTROL_NAMES;
  }

  /** Whether some enabled type has a value field. */
  predicate HasTypeWithValue(enabledTypes: set<string>) {
    exists k :: k in MAPPED_KEYS && k in enabledTypes
  }

  /** What `onToggleChange` ended in. */
  datatype ToggleOutcome = Refused | Toggled | Reverted

  /** What `saveSettings` ended in. */
  datatype SaveOutcome = Invalid | Saved | SaveFailed

  /** The toggled type: its key and whether it needs a value. */
  datatype TypeToggle = TypeToggle(key: string, requiresValue: bool)

  class NotificationTypesPage {
    var enabledTypes: set<string>
    var showAdditionalFields: bool
    var isSubmitting: bool
    /** Each form control's validators and value. */
    var validators: map<string, seq<Validator>>
    var values: map<string, string>

    /** The form has its four controls, and the visibility flag and the
        validators agree with the enabled set. */
    ghost predicate Valid()
      reads this
    {
      && (forall c :: c in CONTROL_NAMES ==> c in validators && c in values)
      && showAdditionalFields == HasTypeWithValue(enabledTypes)
      && (forall c :: c in CONTROL_NAMES ==> validators[c] == ExpectedValidators(enabledTypes, c))
    }

    /** The form as built, before any type is known to be enabled. */
    constructor ()
      ensures enabledTypes == {} && !showAdditionalFields && !isSubmitting
      ensures forall c :: c in CONTROL_NAMES ==> c in validators && c in values && values[c] == ""
      ensures validators == map["emailAddress" := [Email], "phoneNumber" := [Pattern(PHONE_PATTERN)],
                                "whatsappNumber" := [Pattern(PHONE_PATTERN)], "telegramUsername" := [Pattern(TELEGRAM_PATTERN)]]
    {
      enabledTypes := {};
      showAdditionalFields := false;
      isSubmitting := false;
      validators := map["emailAddress" := [Email], "phoneNumber" := [Pattern(PHONE_PATTERN)],
                        "whatsappNumber" := [Pattern(PHONE_PATTERN)], "telegramUsername" := [Pattern(TELEGRAM_PATTERN)]];
      values := map["emailAddress" := "", "phoneNumber" := "", "whatsappNumber" := "", "telegramUsername" := ""];
    }

    /** `ngOnInit`: records the types that are enabled, loads the saved
        settings into the form, then updates the fields. `settings` is what
        the service returned, None when it failed; `loadFailed` stands for
        the failure toast. */
    method Init(types: seq<(string, bool)>, settings: Option<map<string, string>>) returns (loadFailed: bool)
      requires forall c :: c in CONTROL_NAMES ==> c in validators && c in values
      modifies this`enabledTypes, this`showAdditionalFields, this`validators, this`values
      ensures enabledTypes == old(enabledTypes) + set i | 0 <= i < |types| && types[i].1 :: types[i].0
      ensures Valid()
      ensures loadFailed <==> settings.None?
      ensures values.Keys == old(values).Keys
      ensures forall c :: c in values ==>
        values[c] == if settings.Some? && c in settings.value then settings.value[c] else old(values)[c]
    {
      for i := 0 to |types|
        invariant enabledTypes == old(enabledTypes) + set k | 0 <= k < i && types[k].1 :: types[k].0
        invariant validators == old(validators) && values == old(values)
      {
        if types[i].1 {
          enabledTypes := enabledTypes + {types[i].0};
        }
      }
      loadFailed := LoadNotificationSettings(settings);
      UpdateAdditionalFieldsVisibility();
    }

    /** `loadNotificationSettings`: a non-empty set of saved settings is
        patched into the form, each saved value going to the control of the
        same name, and the fields are updated; nothing else changes. */
    method LoadNotificationSettings(settings: Option<map<string, string>>) returns (failed: bool)
      requires forall c :: c in CONTROL_NAMES ==> c in validators && c in values
      modifies this`showAdditionalFields, this`validators, this`values
      ensures failed <==> settings.None?
      ensures forall c :: c in CONTROL_NAMES ==> c in validators && c in values
      ensures enabledTypes == old(enabledTypes)
      ensures settings.None? || |settings.value| == 0 ==> values == old(values) && validators == old(validators)
      ensures settings.Some? && |settings.value| > 0 ==>
        && Valid()
        && validators.Keys == old(validators).Keys
        && forall c :: c in validators && c !in CONTROL_NAMES ==> validators[c] == old(validators)[c]
      ensures values.Keys == old(values).Keys
      ensures forall c :: c in values ==>
        values[c] == if settings.Some? && c in settings.value then settings.value[c] else old(values)[c]
    {
      if settings.None? {
        return true;
      }
      var saved := settings.value;
      if |saved| > 0 {
        values := map c | c in values :: if c in saved then saved[c] else values[c];
        UpdateAdditionalFieldsVisibility();
      }
      return false;
    }

    /** `updateAdditionalFieldsVisibility`: shows the value fields when an
        enabled type has one, and gives each control its type's validators
        when that type is enabled and none otherwise. */
    method UpdateAdditionalFieldsVisibility()
      requires forall c :: c in CONTROL_NAMES ==> c in validators && c in values
      modifies this`showAdditionalFields, this`validators
      ensures Valid()
      ensures validators.Keys == old(validators.Keys)
      ensures forall c :: c in validators && c !in CONTROL_NAMES ==> validators[c] == old(validators[c])
    {
      showAdditionalFields := HasTypeWithValue(enabledTypes);
      var updated := RefreshAll(validators, enabledTypes);
      RefreshedForm(validators, enabledTypes);
      validators := updated;
    }

    /** `onToggleChange`; `serviceOk` says whether the service calls that
        store the change succeeded. Turning a fourth method on is refused;
        otherwise the key is added or removed (a removed method that needs a
        value has its field cleared), and if the service fails the set is
        put back as it was. */
    method OnToggleChange(t: TypeToggle, serviceOk: bool) returns (outcome: ToggleOutcome)
      requires Valid()
      modifies this`enabledTypes, this`showAdditionalFields, this`validators, this`values
      ensures Valid()
      ensures outcome == Refused <==> t.key !in old(enabledTypes) && |old(enabledTypes)| >= MAX_ENABLED
      ensures outcome == Refused ==> enabledTypes == old(enabledTypes) && values == old(values)
      ensures outcome == Toggled <==> outcome != Refused && serviceOk
      ensures outcome == Toggled ==>
        enabledTypes == if t.key in old(enabledTypes) then old(enabledTypes) - {t.key} else old(enabledTypes) + {t.key}
      ensures outcome == Reverted ==> enabledTypes == old(enabledTypes)
      ensures outcome != Refused && t.key in old(enabledTypes) && t.requiresValue && ControlName(t.key) != "" ==>
        values == old(values)[ControlName(t.key) := ""]
      ensures !(t.key in old(enabledTypes) && t.requiresValue) ==> values == old(values)
      ensures |old(enabledTypes)| <= MAX_ENABLED ==> |enabledTypes| <= MAX_ENABLED
    {
      var newEnabledState := t.key !in enabledTypes;
      if newEnabledState && |enabledTypes| >= MAX_ENABLED {
        return Refused;
      }
      ApplyToggle(t);
      if serviceOk {
        return Toggled;
      }
      RevertToggle(t, newEnabledState);
      return Reverted;
    }

    /** The local half of `onToggleChange`: the key is added, or removed
        together with its field's value and validators, and the value fields
        are updated. */
    method ApplyToggle(t: TypeToggle)
      requires Valid()
      modifies this`enabledTypes, this`showAdditionalFields, this`validators, this`values
      ensures Valid()
      ensures t.key in old(enabledTypes) ==> enabledTypes == old(enabledTypes) - {t.key}
      ensures t.key !in old(enabledTypes) ==> enabledTypes == old(enabledTypes) + {t.key}
      ensures t.key in old(enabledTypes) && t.requiresValue && ControlName(t.key) != "" ==>
        values == old(values)[ControlName(t.key) := ""]
      ensures !(t.key in old(enabledTypes) && t.requiresValue && ControlName(t.key) != "") ==> values == old(values)
    {
      if t.key !in enabledTypes {
        enabledTypes := enabledTypes + {t.key};
      } else {
        enabledTypes := enabledTypes - {t.key};
        if t.requiresValue {
          var controlName := ControlName(t.key);
          if controlName != "" {
            values := values[controlName := ""];
            validators := validators[controlName := []];
          }
        }
      }
      UpdateAdditionalFieldsVisibility();
    }

    /** The error path of `onToggleChange`: the key is put back as it was
        (a re-added type that needs a value gets its validators again) and
        the value fields are updated. */
    method RevertToggle(t: TypeToggle, newEnabledState: bool)
      requires Valid()
      modifies this`enabledTypes, this`showAdditionalFields, this`validators
      ensures Valid()
      ensures newEnabledState ==> enabledTypes == old(enabledTypes) - {t.key}
      ensures !newEnabledState ==> enabledTypes == old(enabledTypes) + {t.key}
    {
      if newEnabledState {
        enabledTypes := enabledTypes - {t.key};
      } else {
        enabledTypes := enabledTypes + {t.key};
        if t.requiresValue {
          var controlName := ControlName(t.key);
          if controlName != "" {
            validators := validators[controlName := ValidatorsForType(t.key)];
          }
        }
      }
      UpdateAdditionalFieldsVisibility();
    }

    /** `saveSettings`; `formValid` is the form's validity and `serviceOk`
        whether saving succeeded. Nothing is saved while the value fields
        are shown and the form is invalid; otherwise the page is busy only
        during the save. */
    method SaveSettings(formValid: bool, serviceOk: bool) returns (outcome: SaveOutcome)
      modifies this`isSubmitting
      ensures outcome == Invalid <==> showAdditionalFields && !formValid
      ensures outcome == Invalid ==> isSubmitting == old(isSubmitting)
      ensures outcome != Invalid ==> !isSubmitting && (outcome == Saved <==> serviceOk)
    {
      if showAdditionalFields && !formValid {
        return Invalid;
      }
      isSubmitting := true;
      if serviceOk {
        outcome := Saved;
      } else {
        outcome := SaveFailed;
      }
      isSubmitting := false;
    }
  }
}
