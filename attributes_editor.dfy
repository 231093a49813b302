/**
 The attribute editors the action drives. The concrete editors belong to the
 channel and contact components and are not part of this model; what is
 modelled is the sequence of calls made on them. Both editors of one action
 run write to a shared `Journal`, so the order of calls across the two editors
 is observable.
 */
module AttributesEditing {

  /** Which component an editor belongs to. */
  datatype Target = Channel | Contact

  /** One call on an `AttributesEditor`. */
  datatype EditOp =
    | SetString(attribute: string, text: string)
    | SetNumber(attribute: string, number: real)
    | SetDate(attribute: string, date: real)
    | Remove(attribute: string)
    | Apply
  {
    predicate IsSet() {
      SetString? || SetNumber? || SetDate?
    }
  }

  /** A call together with the editor it was made on. */
  datatype Call = Call(target: Target, op: EditOp)

  /** The record of every editor call, in the order the calls were made. */
  class Journal {
    var entries: seq<Call>

    constructor ()
      ensures entries == []
    {
      entries := [];
    }
  }

  /** An attributes editor obtained from the channel or the contact. */
  class AttributesEditor {
    const target: Target
    const journal: Journal

    constructor (target: Target, journal: Journal)
      ensures this.target == target && this.journal == journal
    {
      this.target := target;
      this.journal := journal;
    }

    method SetString(text: string, attribute: string)
      modifies journal
      ensures journal.entries == old(journal.entries) + [Call(target, EditOp.SetString(attribute, text))]
    {
      journal.entries := journal.entries + [Call(target, EditOp.SetString(attribute, text))];
    }

    method SetNumber(number: real, attribute: string)
      modifies journal
      ensures journal.entries == old(journal.entries) + [Call(target, EditOp.SetNumber(attribute, number))]
    {
      journal.entries := journal.entries + [Call(target, EditOp.SetNumber(attribute, number))];
    }

    method SetDate(date: real, attribute: string)
      modifies journal
      ensures journal.entries == old(journal.entries) + [Call(target, EditOp.SetDate(attribute, date))]
    {
      journal.entries := journal.entries + [Call(target, EditOp.SetDate(attribute, date))];
    }

    method Remove(attribute: string)
      modifies journal
      ensures journal.entries == old(journal.entries) + [Call(target, EditOp.Remove(attribute))]
    {
      journal.entries := journal.entries + [Call(target, EditOp.Remove(attribute))];
    }

    method Apply()
      modifies journal
      ensures journal.entries == old(journal.entries) + [Call(target, EditOp.Apply)]
    {
      journal.entries := journal.entries + [Call(target, EditOp.Apply)];
    }
  }
}
