/**
 The modify-attributes action (registered as "modify_attributes_action" and
 "^a"). Its payload holds an optional "channel" section and an optional
 "named_user" section, each with a "set" dictionary of attribute values and a
 "remove" list of attribute names. `AcceptsArguments` validates the payload;
 `Perform` turns each section into calls on the channel's or the contact's
 attributes editor.
 */
module ModifyAttributesAction {
  import opened ActionValue
  import opened AttributesEditing

  const NamedUserKey := "named_user"
  const ChannelKey := "channel"
  const SetActionKey := "set"
  const RemoveActionKey := "remove"

  const Name := "modify_attributes_action"
  const ShortName := "^a"

  // ---------------------------------------------------------------------------
  // Validation
  // ---------------------------------------------------------------------------

  /** A non-empty string-keyed dictionary. */
  predicate IsNonEmptyObject(v: Value) {
    v.Object? && |v.fields| > 0
  }

  /** A non-empty array of strings. */
  predicate IsNonEmptyStringList(v: Value) {
    v.Array? && |v.items| > 0 && forall i :: 0 <= i < |v.items| ==> v.items[i].Str?
  }

  /** Whether a section is acceptable: each of "set" and "remove" that is
      present is well-formed and non-empty, and at least one is present.
      The values inside "set" are not inspected. */
  function AttributesValid(mutations: Option<map<string, Value>>): (r: bool)
    ensures r <==>
      && mutations.Some?
      && (SetActionKey in mutations.value || RemoveActionKey in mutations.value)
      && (SetActionKey in mutations.value ==> IsNonEmptyObject(mutations.value[SetActionKey]))
      && (RemoveActionKey in mutations.value ==> IsNonEmptyStringList(mutations.value[RemoveActionKey]))
  {
    var sets := if mutations.Some? then Lookup(mutations.value, SetActionKey) else None;
    if sets.Some? && (!sets.value.Object? || |sets.value.fields| <= 0) then
      false
    else
      var removes := if mutations.Some? then Lookup(mutations.value, RemoveActionKey) else None;
      if removes.Some? && (AsStringList(removes.value).None? || |AsStringList(removes.value).value| <= 0) then
        false
      else
        sets.Some? || removes.Some?
  }

  /** Whether the action accepts `args`: never in the background-push
      situation; otherwise the value must be a dictionary of sections, every
      "named_user" or "channel" section present must be valid, and at least one
      of the two must be present. Other sections are ignored. */
  function AcceptsArguments(args: Arguments): (r: bool)
    ensures args.situation == BackgroundPush ==> !r
    ensures r <==>
      && args.situation != BackgroundPush
      && args.value.Object?
      && (forall k :: k in args.value.fields ==> args.value.fields[k].Object?)
      && (NamedUserKey in args.value.fields || ChannelKey in args.value.fields)
      && (NamedUserKey in args.value.fields ==> AttributesValid(Some(args.value.fields[NamedUserKey].fields)))
      && (ChannelKey in args.value.fields ==> AttributesValid(Some(args.value.fields[ChannelKey].fields)))
  {
    if args.situation == BackgroundPush then false
    else match AsSections(args.value)
      case None => false
      case Some(dict) =>
        var namedUser := Lookup(dict, NamedUserKey);
        if namedUser.Some? && !AttributesValid(namedUser) then false
        else
          var channel := Lookup(dict, ChannelKey);
          if channel.Some? && !AttributesValid(channel) then false
          else namedUser.Some? || channel.Some?
  }

  // ---------------------------------------------------------------------------
  // The calls an edit makes
  // ---------------------------------------------------------------------------

  /** The "set" dictionary of a section, when it is one (empty otherwise). */
  function SetsOf(mutations: map<string, Value>): map<string, Value>
  {
    if SetActionKey in mutations && mutations[SetActionKey].Object? then mutations[SetActionKey].fields else map[]
  }

  /** The "remove" list of a section, when it is a list of strings (empty otherwise). */
  function RemovesOf(mutations: map<string, Value>): seq<string>
  {
    if RemoveActionKey in mutations then
      match AsStringList(mutations[RemoveActionKey])
      case None => []
      case Some(names) => names
    else []
  }

  /** The editor call for one "set" entry: strings, numbers and dates are set
      with their own type; any other value is only logged. */
  function SetCall(key: string, v: Value): (r: Option<EditOp>)
    ensures r.Some? <==> v.Str? || v.Number? || v.Date?
    ensures r.Some? ==> r.value.IsSet() && r.value.attribute == key
    ensures v.Str? ==> r == Some(EditOp.SetString(key, v.s))
    ensures v.Number? ==> r == Some(EditOp.SetNumber(key, v.n))
    ensures v.Date? ==> r == Some(EditOp.SetDate(key, v.sinceEpoch))
  {
    match v
    case Str(s) => Some(EditOp.SetString(key, s))
    case Number(n) => Some(EditOp.SetNumber(key, n))
    case Date(d) => Some(EditOp.SetDate(key, d))
    case _ => None
  }

  /** Whether `order` lists the keys of `keys` once each: one possible order
      in which a dictionary's entries are visited. */
  predicate Enumerates(order: seq<string>, keys: set<string>) {
    && (forall i, j :: 0 <= i < j < |order| ==> order[i] != order[j])
    && (forall i :: 0 <= i < |order| ==> order[i] in keys)
    && (forall k :: k in keys ==> k in order)
  }

  /** The set calls made on editor `t` when the entries of `sets` are visited
      in `order`. */
  function SetCalls(t: Target, sets: map<string, Value>, order: seq<string>): (r: seq<Call>)
    requires forall i :: 0 <= i < |order| ==> order[i] in sets
    ensures |r| <= |order|
    ensures forall i :: 0 <= i < |r| ==> r[i].target == t && r[i].op.IsSet()
  {
    if order == [] then []
    else
      var last := order[|order| - 1];
      SetCalls(t, sets, order[..|order| - 1]) +
        match SetCall(last, sets[last])
        case Some(op) => [Call(t, op)]
        case None => []
  }

  /** The remove calls made on editor `t` for the names in `names`. */
  function RemoveCalls(t: Target, names: seq<string>): (r: seq<Call>)
    ensures |r| == |names|
    ensures forall i :: 0 <= i < |r| ==> r[i] == Call(t, EditOp.Remove(names[i]))
  {
    if names == [] then []
    else RemoveCalls(t, names[..|names| - 1]) + [Call(t, EditOp.Remove(names[|names| - 1]))]
  }

  /** Whether `order` is a possible visiting order of a section's "set" entries. */
  predicate SetOrder(mutations: map<string, Value>, order: seq<string>) {
    Enumerates(order, SetsOf(mutations).Keys)
  }

  /** Every call an edit of `mutations` makes on editor `t`, when the "set"
      entries are visited in `order`. */
  function SectionCalls(t: Target, mutations: map<string, Value>, order: seq<string>): (r: seq<Call>)
    requires SetOrder(mutations, order)
    ensures |r| > 0 && r[|r| - 1] == Call(t, EditOp.Apply)
    ensures forall i :: 0 <= i < |r| ==> r[i].target == t
  {
    SetCalls(t, SetsOf(mutations), order) + RemoveCalls(t, RemovesOf(mutations)) + [Call(t, EditOp.Apply)]
  }

  lemma SectionCallsUnfold(t: Target, mutations: map<string, Value>, order: seq<string>)
    requires SetOrder(mutations, order)
    ensures SectionCalls(t, mutations, order) ==
      SetCalls(t, SetsOf(mutations), order) + RemoveCalls(t, RemovesOf(mutations)) + [Call(t, EditOp.Apply)]
  {
  }

  lemma AppendAssociative<T>(a: seq<T>, b: seq<T>, c: seq<T>)
    ensures a + b + c == a + (b + c)
  {
  }

  /** Whether the two orders are possible visiting orders of the sections that
      `value` holds; an order for an absent section is empty. */
  predicate PerformOrders(value: Value, channelOrder: seq<string>, contactOrder: seq<string>) {
    match AsSections(value)
    case None => channelOrder == [] && contactOrder == []
    case Some(dict) =>
      && (if ChannelKey in dict then SetOrder(dict[ChannelKey], channelOrder) else channelOrder == [])
      && (if NamedUserKey in dict then SetOrder(dict[NamedUserKey], contactOrder) else contactOrder == [])
  }

  /** Every call a run of the action with `value` makes, given whether the
      channel and the contact components are available. */
  function PerformCalls(value: Value, channelAvailable: bool, contactAvailable: bool,
                        channelOrder: seq<string>, contactOrder: seq<string>): (r: seq<Call>)
    requires PerformOrders(value, channelOrder, contactOrder)
  {
    match AsSections(value)
    case None => []
    case Some(dict) =>
      (if ChannelKey in dict && channelAvailable then SectionCalls(Channel, dict[ChannelKey], channelOrder) else []) +
      (if NamedUserKey in dict && contactAvailable then SectionCalls(Contact, dict[NamedUserKey], contactOrder) else [])
  }

  // ---------------------------------------------------------------------------
  // The action's imperative part
  // ---------------------------------------------------------------------------

  /** Issues the call for one "set" entry, or only logs an unsupported value. */
  method ApplySet(key: string, value: Value, editor: AttributesEditor?)
    modifies if editor == null then {} else {editor.journal}
    ensures editor != null ==>
      editor.journal.entries == old(editor.journal.entries) +
        match SetCall(key, value)
        case Some(op) => [Call(editor.target, op)]
        case None => []
  {
    match value
    case Str(s) =>
      if editor != null { editor.SetString(s, key); }
    case Number(n) =>
      if editor != null { editor.SetNumber(n, key); }
    case Date(d) =>
      if editor != null { editor.SetDate(d, key); }
    case _ =>
      // the value is only logged
  }

  /** Visits the entries of `sets` in the dictionary's own order, which is
      returned, issuing the call for each. */
  method ApplySets(sets: map<string, Value>, editor: AttributesEditor?) returns (ghost order: seq<string>)
    modifies if editor == null then {} else {editor.journal}
    ensures Enumerates(order, sets.Keys)
    ensures editor != null ==>
      editor.journal.entries == old(editor.journal.entries) + SetCalls(editor.target, sets, order)
  {
    order := [];
    var remaining := sets.Keys;
    while remaining != {}
      invariant remaining <= sets.Keys
      invariant Enumerates(order, sets.Keys - remaining)
      invariant editor != null ==>
        editor.journal.entries == old(editor.journal.entries) + SetCalls(editor.target, sets, order)
      decreases remaining
    {
      var key :| key in remaining;
      ApplySet(key, sets[key], editor);
      assert (order + [key])[..|order|] == order;
      order := order + [key];
      remaining := remaining - {key};
    }
  }

  /** Issues a remove call for every name in `removes`, in list order. */
  method ApplyRemoves(removes: seq<string>, editor: AttributesEditor?)
    modifies if editor == null then {} else {editor.journal}
    ensures editor != null ==>
      editor.journal.entries == old(editor.journal.entries) + RemoveCalls(editor.target, removes)
  {
    for i := 0 to |removes|
      invariant editor != null ==>
        editor.journal.entries == old(editor.journal.entries) + RemoveCalls(editor.target, removes[..i])
    {
      if editor != null {
        assert removes[..i + 1][..i] == removes[..i];
        editor.Remove(removes[i]);
      }
    }
    assert removes[..|removes|] == removes;
  }

  /** Applies one section to `editor` (absent when its component is): a set
      call for every supported "set" entry, in the dictionary's own order,
      which is returned; a remove call for every "remove" name; then apply. */
  method ApplyEdits(mutations: map<string, Value>, editor: AttributesEditor?) returns (ghost order: seq<string>)
    modifies if editor == null then {} else {editor.journal}
    ensures SetOrder(mutations, order)
    ensures editor != null ==>
      editor.journal.entries == old(editor.journal.entries) + SectionCalls(editor.target, mutations, order)
  {
    ghost var before := if editor == null then [] else editor.journal.entries;
    order := [];
    if SetActionKey in mutations && mutations[SetActionKey].Object? {
      order := ApplySets(mutations[SetActionKey].fields, editor);
    }
    ghost var afterSets := if editor == null then [] else editor.journal.entries;
    assert editor != null ==> afterSets == before + SetCalls(editor.target, SetsOf(mutations), order);
    var removes := if RemoveActionKey in mutations then AsStringList(mutations[RemoveActionKey]) else None;
    if removes.Some? {
      ApplyRemoves(removes.value, editor);
    }
    assert editor != null ==> editor.journal.entries == afterSets + RemoveCalls(editor.target, RemovesOf(mutations));
    if editor != null {
      editor.Apply();
      ghost var setCalls := SetCalls(editor.target, SetsOf(mutations), order);
      ghost var removeCalls := RemoveCalls(editor.target, RemovesOf(mutations));
      ghost var applyCall := [Call(editor.target, EditOp.Apply)];
      assert editor.journal.entries == before + setCalls + removeCalls + applyCall;
      AppendAssociative(before, setCalls, removeCalls);
      AppendAssociative(before, setCalls + removeCalls, applyCall);
      SectionCallsUnfold(editor.target, mutations, order);
    }
  }

  /** Runs the action: the channel section, when present, is applied to a new
      channel editor, then the named-user section, when present, to a new
      contact editor. An unavailable component gets no calls. The section
      is not validated again here. */
  method Perform(args: Arguments, channelAvailable: bool, contactAvailable: bool, journal: Journal)
    returns (ghost channelOrder: seq<string>, ghost contactOrder: seq<string>)
    modifies journal
    ensures PerformOrders(args.value, channelOrder, contactOrder)
    ensures journal.entries ==
      old(journal.entries) + PerformCalls(args.value, channelAvailable, contactAvailable, channelOrder, contactOrder)
  {
    channelOrder, contactOrder := [], [];
    var dict := AsSections(args.value);
    if dict.None? {
      return;
    }
    var sections := dict.value;
    ghost var before := journal.entries;
    ghost var channelCalls: seq<Call> := [];
    if ChannelKey in sections {
      var editor: AttributesEditor? := null;
      if channelAvailable {
        editor := new AttributesEditor(Channel, journal);
      }
      channelOrder := ApplyEdits(sections[ChannelKey], editor);
      if channelAvailable {
        channelCalls := SectionCalls(Channel, sections[ChannelKey], channelOrder);
      }
    }
    assert journal.entries == before + channelCalls;
    ghost var contactCalls: seq<Call> := [];
    if NamedUserKey in sections {
      var editor: AttributesEditor? := null;
      if contactAvailable {
        editor := new AttributesEditor(Contact, journal);
      }
      contactOrder := ApplyEdits(sections[NamedUserKey], editor);
      if contactAvailable {
        contactCalls := SectionCalls(Contact, sections[NamedUserKey], contactOrder);
      }
    }
    assert journal.entries == before + channelCalls + contactCalls;
    assert PerformOrders(args.value, channelOrder, contactOrder);
    assert PerformCalls(args.value, channelAvailable, contactAvailable, channelOrder, contactOrder) == channelCalls + contactCalls;
    AppendAssociative(before, channelCalls, contactCalls);
  }
}
