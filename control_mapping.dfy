/** The correspondence between notification type keys and the names of the
    form controls that hold their values. The same table appears in
    `NotificationTypeService` and in `NotificationTypesPage` (as
    `controlMapping`, and reversed as `reverseControlMapping`). */
module ControlMapping {
  /** The keys that have a form control, in the order the mapping lists them. */
  const MAPPED_KEYS: seq<string> := ["email", "sms", "whatsapp", "telegram"]

  /** The form's controls, in the order the form declares them. */
  const CONTROL_NAMES: seq<string> := ["emailAddress", "phoneNumber", "whatsappNumber", "telegramUsername"]

  /** `controlMapping[typeKey] || ''` */
  function ControlName(typeKey: string): string {
    match typeKey
    case "email" => "emailAddress"
    case "sms" => "phoneNumber"
    case "whatsapp" => "whatsappNumber"
    case "telegram" => "telegramUsername"
    case _ => ""
  }

  /** `reverseControlMapping[controlName] || ''` */
  function TypeKey(controlName: string): string {
    match controlName
    case "emailAddress" => "email"
    case "phoneNumber" => "sms"
    case "whatsappNumber" => "whatsapp"
    case "telegramUsername" => "telegram"
    case _ => ""
  }

  /** Exactly the four mapped keys have a control, and it is one of the
      form's controls. */
  lemma ControlNameDomain(typeKey: string)
    ensures ControlName(typeKey) != "" <==> typeKey in MAPPED_KEYS
    ensures ControlName(typeKey) != "" ==> ControlName(typeKey) in CONTROL_NAMES
  {
  }

  /** Exactly the four controls have a type key, and it is one of the
      mapped keys. */
  lemma TypeKeyDomain(controlName: string)
    ensures TypeKey(controlName) != "" <==> controlName in CONTROL_NAMES
    ensures TypeKey(controlName) != "" ==> TypeKey(controlName) in MAPPED_KEYS
  {
  }

  /** The two tables are inverse to each other on the four mapped keys and
      the four control names. */
  lemma MappingsInverse(typeKey: string, controlName: string)
    ensures typeKey in MAPPED_KEYS ==> TypeKey(ControlName(typeKey)) == typeKey
    ensures controlName in CONTROL_NAMES ==> ControlName(TypeKey(controlName)) == controlName
    ensures ControlName(typeKey) != "" && ControlName(typeKey) == controlName ==> TypeKey(controlName) == typeKey
  {
  }

  /** Distinct keys have distinct controls. */
  lemma ControlNameInjective(a: string, b: string)
    requires ControlName(a) != "" && ControlName(a) == ControlName(b)
    ensures a == b
  {
    MappingsInverse(a, ControlName(a));
    MappingsInverse(b, ControlName(b));
  }
}
