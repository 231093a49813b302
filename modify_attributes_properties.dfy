/**
 Properties of the modify-attributes action: what an edit of one section
 issues, independently of the order in which the "set" dictionary is
 visited; the order of the two editors in a run; and how acceptance relates
 to what a run does.
 */
module ModifyAttributesProperties {
  import opened ActionValue
  import opened AttributesEditing
  import opened ModifyAttributesAction

  /** Whether `c` is the set call the entry of `sets` for its attribute asks
      for, made on editor `t`. */
  predicate IsSetCallFor(t: Target, sets: map<string, Value>, c: Call) {
    && c.target == t
    && c.op.IsSet()
    && c.op.attribute in sets
    && SetCall(c.op.attribute, sets[c.op.attribute]) == Some(c.op)
  }

  predicate NoDuplicates(order: seq<string>) {
    forall i, j :: 0 <= i < j < |order| ==> order[i] != order[j]
  }

  /** Every call issued while visiting `order` is a set call on editor `t`
      that the entry of one of the visited keys asks for. */
  lemma {:induction false} SetCallsSound(t: Target, sets: map<string, Value>, order: seq<string>)
    requires forall i :: 0 <= i < |order| ==> order[i] in sets
    ensures forall c :: c in SetCalls(t, sets, order) ==> IsSetCallFor(t, sets, c) && c.op.attribute in order
  {
    if order != [] {
      var prefix, last := order[..|order| - 1], order[|order| - 1];
      SetCallsSound(t, sets, prefix);
      assert forall k :: k in prefix ==> k in order;
    }
  }

  /** Visiting the distinct keys `order` issues each call asked for by one of
      them exactly once, and no other call. */
  lemma {:induction false} SetCallsCount(t: Target, sets: map<string, Value>, order: seq<string>, c: Call)
    requires forall i :: 0 <= i < |order| ==> order[i] in sets
    requires NoDuplicates(order)
    ensures multiset(SetCalls(t, sets, order))[c] ==
      if IsSetCallFor(t, sets, c) && c.op.attribute in order then 1 else 0
  {
    if order != [] {
      var prefix, last := order[..|order| - 1], order[|order| - 1];
      assert order == prefix + [last];
      SetCallsCount(t, sets, prefix, c);
      assert last !in prefix;
      var tail := match SetCall(last, sets[last]) case Some(op) => [Call(t, op)] case None => [];
      assert SetCalls(t, sets, order) == SetCalls(t, sets, prefix) + tail;
      assert multiset(SetCalls(t, sets, order)) == multiset(SetCalls(t, sets, prefix)) + multiset(tail);
      if c.op.IsSet() && c.op.attribute == last {
        assert c.op.attribute !in prefix;
      } else {
        assert multiset(tail)[c] == 0;
      }
    }
  }

  /** When the "set" dictionary is visited in any order that lists its keys
      once each, every entry with a string, number or date value produces
      exactly one set call with that key and value, and an entry with any
      other value produces none (without stopping the others). */
  lemma SetCallsExactlyOnce(t: Target, sets: map<string, Value>, order: seq<string>, c: Call)
    requires Enumerates(order, sets.Keys)
    ensures multiset(SetCalls(t, sets, order))[c] == if IsSetCallFor(t, sets, c) then 1 else 0
  {
    SetCallsCount(t, sets, order, c);
  }

  /** The set calls do not depend on the dictionary's visiting order, up to
      their order. */
  lemma SetCallsOrderIndependent(t: Target, sets: map<string, Value>, order1: seq<string>, order2: seq<string>)
    requires Enumerates(order1, sets.Keys) && Enumerates(order2, sets.Keys)
    ensures multiset(SetCalls(t, sets, order1)) == multiset(SetCalls(t, sets, order2))
  {
    forall c ensures multiset(SetCalls(t, sets, order1))[c] == multiset(SetCalls(t, sets, order2))[c] {
      SetCallsExactlyOnce(t, sets, order1, c);
      SetCallsExactlyOnce(t, sets, order2, c);
    }
  }

  /** In an edit of one section, apply is called exactly once, last, and
      every set call comes before every other call. */
  lemma SectionCallsOrder(t: Target, mutations: map<string, Value>, order: seq<string>)
    requires SetOrder(mutations, order)
    ensures var r := SectionCalls(t, mutations, order);
      && r[|r| - 1].op == EditOp.Apply
      && (forall i :: 0 <= i < |r| - 1 ==> r[i].op != EditOp.Apply)
      && (forall i, j :: 0 <= i < j < |r| && r[j].op.IsSet() ==> r[i].op.IsSet())
  {
    var m := RemoveCalls(t, RemovesOf(mutations));
    assert forall i :: 0 <= i < |m| ==> m[i].op.Remove?;
    SectionCallsUnfold(t, mutations, order);
    SetsThenOthersThenApply(SetCalls(t, SetsOf(mutations), order), m, Call(t, EditOp.Apply));
  }

  lemma SetsThenOthersThenApply(s: seq<Call>, m: seq<Call>, a: Call)
    requires forall i :: 0 <= i < |s| ==> s[i].op.IsSet()
    requires forall i :: 0 <= i < |m| ==> m[i].op.Remove?
    requires a.op == EditOp.Apply
    ensures var r := s + m + [a];
      && (forall i :: 0 <= i < |r| - 1 ==> r[i].op != EditOp.Apply)
      && (forall i, j :: 0 <= i < j < |r| && r[j].op.IsSet() ==> r[i].op.IsSet())
  {
    var r := s + m + [a];
    assert forall i :: 0 <= i < |s| ==> r[i] == s[i];
    assert forall i :: |s| <= i < |s| + |m| ==> r[i] == m[i - |s|];
  }

  /** In an edit of one section, the calls just before apply are the remove
      calls of the "remove" list, one per name, in the list's order. */
  lemma SectionCallsRemoves(t: Target, mutations: map<string, Value>, order: seq<string>)
    requires SetOrder(mutations, order)
    ensures var r := SectionCalls(t, mutations, order);
      var removes := RemovesOf(mutations);
      && |removes| < |r|
      && r[|r| - 1 - |removes|..|r| - 1] == RemoveCalls(t, removes)
  {
    var m := RemoveCalls(t, RemovesOf(mutations));
    SectionCallsUnfold(t, mutations, order);
    MiddleOfThree(SetCalls(t, SetsOf(mutations), order), m, [Call(t, EditOp.Apply)]);
  }

  lemma MiddleOfThree(s: seq<Call>, m: seq<Call>, a: seq<Call>)
    ensures var r := s + m + a;
      r[|s|..|s| + |m|] == m
  {
    var r := s + m + a;
    assert r[|s|..|s| + |m|] == m by {
      assert forall k :: 0 <= k < |m| ==> r[|s| + k] == m[k];
    }
  }

  /** In an edit of one section, the set calls are exactly those asked for by
      the supported "set" entries, one each, whatever the visiting order. */
  lemma SectionCallsSets(t: Target, mutations: map<string, Value>, order: seq<string>, c: Call)
    requires SetOrder(mutations, order)
    requires c.op.IsSet()
    ensures multiset(SectionCalls(t, mutations, order))[c] == if IsSetCallFor(t, SetsOf(mutations), c) then 1 else 0
  {
    var s := SetCalls(t, SetsOf(mutations), order);
    var m := RemoveCalls(t, RemovesOf(mutations));
    var a := [Call(t, EditOp.Apply)];
    SectionCallsUnfold(t, mutations, order);
    SetCallsExactlyOnce(t, SetsOf(mutations), order, c);
    assert multiset(s + m + a) == multiset(s) + multiset(m) + multiset(a);
    assert c !in m;
  }

  /** A run makes no call when its value is not a dictionary of sections,
      and otherwise makes every channel-editor call before any contact-editor
      call. */
  lemma PerformCallsChannelFirst(value: Value, channelAvailable: bool, contactAvailable: bool,
                                 channelOrder: seq<string>, contactOrder: seq<string>)
    requires PerformOrders(value, channelOrder, contactOrder)
    ensures var r := PerformCalls(value, channelAvailable, contactAvailable, channelOrder, contactOrder);
      && (AsSections(value).None? ==> r == [])
      && (forall i, j :: 0 <= i < j < |r| && r[j].target == Channel ==> r[i].target == Channel)
  {
    var r := PerformCalls(value, channelAvailable, contactAvailable, channelOrder, contactOrder);
    match AsSections(value)
    case None =>
    case Some(dict) =>
      var first := if ChannelKey in dict && channelAvailable then SectionCalls(Channel, dict[ChannelKey], channelOrder) else [];
      var second := if NamedUserKey in dict && contactAvailable then SectionCalls(Contact, dict[NamedUserKey], contactOrder) else [];
      assert r == first + second;
      ChannelCallsFirst(first, second);
  }

  lemma ChannelCallsFirst(first: seq<Call>, second: seq<Call>)
    requires forall i :: 0 <= i < |first| ==> first[i].target == Channel
    requires forall i :: 0 <= i < |second| ==> second[i].target == Contact
    ensures var r := first + second;
      forall i, j :: 0 <= i < j < |r| && r[j].target == Channel ==> r[i].target == Channel
  {
    var r := first + second;
    assert forall j :: |first| <= j < |r| ==> r[j] == second[j - |first|];
  }

  /** In a run over the sections `dict`, the channel editor receives exactly
      the edit of the "channel" section, first, and the contact editor exactly
      the edit of the "named_user" section, last; an absent section or an
      unavailable component receives no call. */
  lemma PerformCallsSections(value: Value, dict: map<string, map<string, Value>>,
                             channelAvailable: bool, contactAvailable: bool,
                             channelOrder: seq<string>, contactOrder: seq<string>)
    requires PerformOrders(value, channelOrder, contactOrder)
    requires AsSections(value) == Some(dict)
    ensures var r := PerformCalls(value, channelAvailable, contactAvailable, channelOrder, contactOrder);
      && (forall i :: 0 <= i < |r| && r[i].target == Channel ==> ChannelKey in dict && channelAvailable)
      && (forall i :: 0 <= i < |r| && r[i].target == Contact ==> NamedUserKey in dict && contactAvailable)
      && (ChannelKey in dict && channelAvailable ==>
            var calls := SectionCalls(Channel, dict[ChannelKey], channelOrder);
            |calls| <= |r| && r[..|calls|] == calls)
      && (NamedUserKey in dict && contactAvailable ==>
            var calls := SectionCalls(Contact, dict[NamedUserKey], contactOrder);
            |calls| <= |r| && r[|r| - |calls|..] == calls)
  {
    var r := PerformCalls(value, channelAvailable, contactAvailable, channelOrder, contactOrder);
    var first := if ChannelKey in dict && channelAvailable then SectionCalls(Channel, dict[ChannelKey], channelOrder) else [];
    var second := if NamedUserKey in dict && contactAvailable then SectionCalls(Contact, dict[NamedUserKey], contactOrder) else [];
    assert r == first + second;
    assert r[..|first|] == first;
    assert r[|r| - |second|..] == second;
  }

  /** Sections other than "channel" and "named_user" are ignored by the
      validator, as long as they are dictionaries. */
  lemma ExtraSectionsIgnored(situation: Situation, fields: map<string, Value>, key: string, section: map<string, Value>)
    requires key != ChannelKey && key != NamedUserKey
    requires key in fields ==> fields[key].Object?
    ensures AcceptsArguments(Arguments(situation, Object(fields[key := Object(section)]))) ==
            AcceptsArguments(Arguments(situation, Object(fields)))
  {
    var extended := fields[key := Object(section)];
    assert (forall k :: k in extended ==> extended[k].Object?) <==> (forall k :: k in fields ==> fields[k].Object?) by {
      if forall k :: k in fields ==> fields[k].Object? {
        forall k | k in extended ensures extended[k].Object? {
          if k != key { assert extended[k] == fields[k]; }
        }
      }
      if forall k :: k in extended ==> extended[k].Object? {
        forall k | k in fields ensures fields[k].Object? {
          if k != key { assert extended[k] == fields[k]; }
        }
      }
    }
  }

  /** For an accepted payload, every name in a section's "remove" list reaches
      that section's editor as a remove call, when the editor's component is
      available. */
  lemma AcceptedRemovesReachEditor(args: Arguments, channelAvailable: bool, contactAvailable: bool,
                                   channelOrder: seq<string>, contactOrder: seq<string>, name: string)
    requires AcceptsArguments(args)
    requires PerformOrders(args.value, channelOrder, contactOrder)
    requires channelAvailable
    requires ChannelKey in args.value.fields
    requires RemoveActionKey in args.value.fields[ChannelKey].fields
    requires Str(name) in args.value.fields[ChannelKey].fields[RemoveActionKey].items
    ensures Call(Channel, EditOp.Remove(name)) in
      PerformCalls(args.value, channelAvailable, contactAvailable, channelOrder, contactOrder)
  {
    var dict := AsSections(args.value).value;
    var section := dict[ChannelKey];
    assert section == args.value.fields[ChannelKey].fields;
    var items := section[RemoveActionKey].items;
    var k :| 0 <= k < |items| && items[k] == Str(name);
    var removes := RemovesOf(section);
    assert |removes| == |items| && removes[k] == name;
    SectionCallsRemoves(Channel, section, channelOrder);
    PerformCallsSections(args.value, dict, channelAvailable, contactAvailable, channelOrder, contactOrder);
    var calls := SectionCalls(Channel, section, channelOrder);
    var r := PerformCalls(args.value, channelAvailable, contactAvailable, channelOrder, contactOrder);
    var start := |calls| - 1 - |removes|;
    assert RemoveCalls(Channel, removes)[k] == Call(Channel, EditOp.Remove(name));
    assert calls[start..|calls| - 1][k] == Call(Channel, EditOp.Remove(name));
    assert calls[start + k] == Call(Channel, EditOp.Remove(name));
    assert r[..|calls|][start + k] == Call(Channel, EditOp.Remove(name));
  }

  /** Acceptance does not promise that an attribute changes: a "set"
      dictionary whose only value is of an unsupported type is accepted, and
      the run then calls only apply on the channel editor. */
  lemma AcceptedPayloadMayEditNothing()
    ensures var value := Object(map[ChannelKey := Object(map[SetActionKey := Object(map["flag" := Other])])]);
      && AcceptsArguments(Arguments(ManualInvocation, value))
      && PerformCalls(value, true, true, ["flag"], []) == [Call(Channel, EditOp.Apply)]
  {
    var sets := map["flag" := Other];
    var section := map[SetActionKey := Object(sets)];
    var value := Object(map[ChannelKey := Object(section)]);
    assert SetsOf(section) == sets;
    assert SetCalls(Channel, sets, ["flag"]) == [] by {
      assert ["flag"][..0] == [];
    }
    assert RemovesOf(section) == [];
    var dict := AsSections(value).value;
    assert dict.Keys == {ChannelKey} && dict[ChannelKey] == section;
    assert dict == map[ChannelKey := section];
  }

  /** A run does not validate its payload again: a channel section with
      neither "set" nor "remove", which the validator rejects, still makes the
      run call apply on the channel editor. */
  lemma PerformDoesNotRevalidate()
    ensures var value := Object(map[ChannelKey := Object(map[])]);
      && !AcceptsArguments(Arguments(ManualInvocation, value))
      && PerformCalls(value, true, true, [], []) == [Call(Channel, EditOp.Apply)]
  {
    var value := Object(map[ChannelKey := Object(map[])]);
    var dict := AsSections(value).value;
    assert dict.Keys == {ChannelKey} && dict[ChannelKey] == map[];
    assert dict == map[ChannelKey := map[]];
  }
}
