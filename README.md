# Modify-attributes action

A Dafny model of the Airship SDK's modify-attributes action (`ModifyAttributesAction`,
registered as `modify_attributes_action` and `^a`). The action takes a loosely typed
payload such as

```
{ "channel":    { "set": { "key": value, ... }, "remove": ["attribute", ...] },
  "named_user": { "set": { "key": value, ... }, "remove": ["attribute", ...] } }
```

and does two things:

- **Validation** (`AcceptsArguments`, `AttributesValid`). The action refuses the
  background-push situation. The value must be a dictionary whose every entry is a
  string-keyed dictionary. A `channel` or `named_user` section that is present must be valid,
  and at least one of the two must be present. A section is valid when each of `set` and
  `remove` that it holds is well-formed and non-empty, and it holds at least one of them.
  The values inside `set` are not inspected.
- **Application** (`Perform`, `ApplyEdits`). The channel section goes to the channel's
  attributes editor, then the named-user section goes to the contact's editor. For each
  section the editor receives a typed set call for every string, number or date entry of
  `set`. Other values are only logged. It then receives one remove call per name in
  `remove`, and finally one apply call.

Files:

- `action_value.dfy` (module `ActionValue`): the payload `Value`, the action situations and
  arguments, and the Swift casts the action uses (`as? [String]`,
  `as? [String : [String : Any]]`).
- `attributes_editor.dfy` (module `AttributesEditing`): the editor calls. The concrete
  editors belong to the channel and contact components. The model records every call
  made on them in a `Journal` shared by both editors, so the order of calls across the
  two editors can be stated.
- `modify_attributes_action.dfy` (module `ModifyAttributesAction`): the validator as
  functions; the call sequences an edit makes as specification functions; and the
  imperative `ApplyEdits` and `Perform`, proved against those functions.
- `modify_attributes_properties.dfy` (module `ModifyAttributesProperties`): lemmas about
  the specification functions.

A Swift dictionary is visited in an unspecified order. `ApplySets` picks each next key
nondeterministically and returns the visiting order as a ghost result. The specification
functions take that order as a parameter. `SetCallsOrderIndependent` shows that the set
calls are the same whatever the order, up to their order.

Payload types: `Number` stands for any value that bridges to `NSNumber`, which includes
JSON booleans. `Date` is a Foundation date. `Other` covers null, dictionaries whose keys
are not all strings, and every other type. `Object` is a string-keyed dictionary.

## Model

| member | source | states |
|---|---|---|
| `ActionValue.Lookup` | Airship/AirshipCore/Source/ModifyAttributesAction.swift:56 | a dictionary subscript yields a value exactly when the key is present, and that value is the entry |
| `ActionValue.StringsOf` | Airship/AirshipCore/Source/ModifyAttributesAction.swift:118 | a list converts to strings exactly when every element is a string, and keeps each string at its index |
| `ActionValue.AsStringList` | Airship/AirshipCore/Source/ModifyAttributesAction.swift:97 | `as? [String]` succeeds exactly on an array of strings, and yields those strings in order |
| `ActionValue.AsSections` | Airship/AirshipCore/Source/ModifyAttributesAction.swift:52 | `as? [String : [String : Any]]` succeeds exactly on a dictionary whose every value is a string-keyed dictionary, and keeps its keys and sections |
| `ModifyAttributesAction.AttributesValid` | Airship/AirshipCore/Source/ModifyAttributesAction.swift:104-128 | a section is valid iff it is non-nil, holds `set` or `remove`, a present `set` is a non-empty dictionary and a present `remove` is a non-empty list of strings; value types in `set` are not constrained |
| `ModifyAttributesAction.AcceptsArguments` | Airship/AirshipCore/Source/ModifyAttributesAction.swift:50-67 | never accepts in the background-push situation; otherwise accepts iff the value is a dictionary of dictionaries, holds `named_user` or `channel`, and each of those present is valid (other sections ignored) |
| `ModifyAttributesAction.SetCall` | Airship/AirshipCore/Source/ModifyAttributesAction.swift:85-93 | a `set` entry yields a call iff its value is a string, number or date; the call is a set of that key with the value under its own type |
| `ModifyAttributesAction.SetCalls` | Airship/AirshipCore/Source/ModifyAttributesAction.swift:83-95 | visiting the `set` keys in a given order issues no more calls than keys visited, every one a set call on the section's editor |
| `ModifyAttributesAction.RemoveCalls` | Airship/AirshipCore/Source/ModifyAttributesAction.swift:97-99 | the `remove` list yields exactly one remove call per name, at the name's own index |
| `ModifyAttributesAction.SectionCalls` | Airship/AirshipCore/Source/ModifyAttributesAction.swift:82-102 | an edit of a section always ends with an apply call, and every call is on that section's editor |
| `ModifyAttributesAction.ApplySet` | Airship/AirshipCore/Source/ModifyAttributesAction.swift:84-94 | one `set` entry appends its set call to the journal, or nothing for an unsupported value; nothing when the editor is absent |
| `ModifyAttributesAction.ApplySets` | Airship/AirshipCore/Source/ModifyAttributesAction.swift:83-95 | the loop visits every key of `set` once (the order is returned) and appends exactly `SetCalls` for that order |
| `ModifyAttributesAction.ApplyRemoves` | Airship/AirshipCore/Source/ModifyAttributesAction.swift:97-99 | the loop appends exactly one remove call per listed name, in list order |
| `ModifyAttributesAction.ApplyEdits` | Airship/AirshipCore/Source/ModifyAttributesAction.swift:82-102 | applying a section appends exactly `SectionCalls` for the visiting order it returns; an absent editor is not touched (empty frame) |
| `ModifyAttributesAction.Perform` | Airship/AirshipCore/Source/ModifyAttributesAction.swift:69-80 | a run appends exactly `PerformCalls`: the channel section on a new channel editor, then the named-user section on a new contact editor |
| `AttributesEditing.AttributesEditor.constructor` | Airship/AirshipCore/Source/ModifyAttributesAction.swift:72 | an editor obtained for a component records its calls under that component |
| `AttributesEditing.AttributesEditor.SetString` | Airship/AirshipCore/Source/ModifyAttributesAction.swift:86 | records one string set call for the attribute |
| `AttributesEditing.AttributesEditor.SetNumber` | Airship/AirshipCore/Source/ModifyAttributesAction.swift:88 | records one number set call for the attribute |
| `AttributesEditing.AttributesEditor.SetDate` | Airship/AirshipCore/Source/ModifyAttributesAction.swift:90 | records one date set call for the attribute |
| `AttributesEditing.AttributesEditor.Remove` | Airship/AirshipCore/Source/ModifyAttributesAction.swift:98 | records one remove call for the attribute |
| `AttributesEditing.AttributesEditor.Apply` | Airship/AirshipCore/Source/ModifyAttributesAction.swift:101 | records one apply call |
| `ModifyAttributesProperties.SetCallsSound` | Airship/AirshipCore/Source/ModifyAttributesAction.swift:84-94 | every set call issued is the one the entry of a visited key asks for, on the section's editor |
| `ModifyAttributesProperties.SetCallsCount` | Airship/AirshipCore/Source/ModifyAttributesAction.swift:84-94 | visiting distinct keys issues each call asked for by a visited key exactly once and no other call |
| `ModifyAttributesProperties.SetCallsExactlyOnce` | Airship/AirshipCore/Source/ModifyAttributesAction.swift:84-94 | over the whole `set` dictionary, each supported entry gives exactly one set call with its key and value; an unsupported entry gives none and the others still get theirs |
| `ModifyAttributesProperties.SetCallsOrderIndependent` | Airship/AirshipCore/Source/ModifyAttributesAction.swift:84 | the set calls are the same multiset whatever order the dictionary is visited in |
| `ModifyAttributesProperties.SectionCallsOrder` | Airship/AirshipCore/Source/ModifyAttributesAction.swift:82-102 | apply is called exactly once, last, and all set calls come before all other calls |
| `ModifyAttributesProperties.SectionCallsRemoves` | Airship/AirshipCore/Source/ModifyAttributesAction.swift:97-101 | the calls just before apply are one remove per name of the `remove` list, in list order |
| `ModifyAttributesProperties.SectionCallsSets` | Airship/AirshipCore/Source/ModifyAttributesAction.swift:83-95 | among all calls of a section, each set call asked for by a supported `set` entry occurs exactly once and no other set call occurs |
| `ModifyAttributesProperties.PerformCallsChannelFirst` | Airship/AirshipCore/Source/ModifyAttributesAction.swift:70-78 | a value that is not a dictionary of sections yields no calls; otherwise every channel-editor call precedes every contact-editor call |
| `ModifyAttributesProperties.PerformCallsSections` | Airship/AirshipCore/Source/ModifyAttributesAction.swift:70-78 | the channel editor gets exactly the channel section's edit first, the contact editor exactly the named-user section's edit last; an absent section or unavailable component gets no calls |
| `ModifyAttributesProperties.ExtraSectionsIgnored` | Airship/AirshipCore/Source/ModifyAttributesAction.swift:52-66 | adding or replacing a dictionary section under any other key does not change acceptance |
| `ModifyAttributesProperties.AcceptedRemovesReachEditor` | Airship/AirshipCore/Source/ModifyAttributesAction.swift:50-99 | for an accepted payload, every name in the channel section's `remove` list reaches the channel editor as a remove call |
| `ModifyAttributesProperties.AcceptedPayloadMayEditNothing` | Airship/AirshipCore/Source/ModifyAttributesAction.swift:83-114 | a payload whose only `set` value has an unsupported type is accepted, and its run calls only apply |
| `ModifyAttributesProperties.PerformDoesNotRevalidate` | Airship/AirshipCore/Source/ModifyAttributesAction.swift:69-80 | a run does not validate again: an empty channel section, which is rejected, still gets an apply call |

## Left out

- The lookups of the channel and contact singletons (`UAirship.channel()`,
  `UAirship.contact()`) are foreign runtime calls. `Perform` takes two booleans saying
  whether each component is available, and creates a fresh editor for it when it is.
- The concrete attributes editors are foreign; only the calls made on them are modelled,
  as entries of a journal. What `apply` does with the pending edits is not modelled.
- The error log for an unsupported `set` value is logging only. It is modelled as "no
  editor call".
- The iteration order of Swift dictionaries is unspecified. The model does not fix one; it
  returns the order used and proves the set calls independent of it.
- The completion handler of `perform` is never invoked by the action, so there is no result
  to model.
- `NSNumber` and `Date` are modelled as plain reals. Their precision, and the choice between
  integer and floating-point numbers, is not modelled.
- The default predicate that rejects foreground pushes with visible display options lives in
  the action registry. The registry is not part of this model.
- The push-notification retention store (`PushDataManager.swift`) is a CoreData-backed debug
  tool and is not part of this model.
- The SwiftUI views (`AirshipCheckboxToggleStyle.swift`, `ViewConstraintsViewModifier.swift`),
  the network-client declarations (`UAAPIClient.h`, `UADeferredScheduleAPIClient+Internal.h`)
  and the version constant (`AirshipVersion.swift`) are not part of this model.
- `AttributeUpdate` and its JSON coding, exercised by `AttributeUpdateTest.swift`, are not
  part of this model.
