/**
 * The item form of the demo CRUD page: a record with a name, a boolean
 * property and a date, edited field by field, submitted and reset; and the
 * rule for showing the delete button next to an item.
 */
module ItemCrud {
  import opened Wrappers
  import opened Auth

  datatype Item = Item(name: string, property: bool, date: Option<int>)

  /** The blank form: empty name, property off, the date of the render (`now`). */
  function EmptyItem(now: int): (i: Item)
    ensures i.name == "" && !i.property && i.date == Some(now)
  {
    Item("", false, Some(now))
  }

  /** The checkbox flips the property and nothing else. */
  function Toggled(i: Item): (t: Item)
    ensures t.property != i.property && t.name == i.name && t.date == i.date
  {
    i.(property := !i.property)
  }

  lemma ToggleTwiceRestores(i: Item)
    ensures Toggled(Toggled(i)) == i
  {
  }

  /** The delete button is visible to any administrator and to the item's owner. */
  predicate DeleteVisible(session: Option<Session>, itemUserId: string)
    ensures session.Some? && session.value.userId == Some(itemUserId) ==> DeleteVisible(session, itemUserId)
    ensures DeleteVisible(session, itemUserId) ==>
              session.Some? && (session.value.role == User ==> session.value.userId == Some(itemUserId))
  {
    session.Some? && (session.value.role == Admin || session.value.userId == Some(itemUserId))
  }

  /** Unlike reservations, the role alone suffices: an administrator of any club sees the button. */
  lemma AnyAdminSeesDelete(session: Session, itemUserId: string)
    requires session.role == Admin
    ensures DeleteVisible(Some(session), itemUserId)
  {
  }

  /** Someone who is neither an administrator nor the owner never sees it. */
  lemma StrangerSeesNoDelete(session: Option<Session>, itemUserId: string)
    requires session.None? || (session.value.role == User && session.value.userId != Some(itemUserId))
    ensures !DeleteVisible(session, itemUserId)
  {
  }

  class ItemForm {
    var item: Item
    /** The items handed to the insert request so far, oldest first. */
    var submitted: seq<Item>

    constructor (now: int)
      ensures item == EmptyItem(now) && submitted == []
    {
      item := EmptyItem(now);
      submitted := [];
    }

    /** Typing in the text input, which is named after the item's first key, `name`. */
    method HandleChange(value: string)
      modifies this
      ensures item.name == value
      ensures item.property == old(item.property) && item.date == old(item.date)
      ensures submitted == old(submitted)
    {
      item := item.(name := value);
    }

    method HandleCheckboxChange()
      modifies this
      ensures item == Toggled(old(item))
      ensures submitted == old(submitted)
    {
      item := Toggled(item);
    }

    /** Submits the current item, then resets the form to the blank item of this render. */
    method HandleSubmit(now: int)
      modifies this
      ensures submitted == old(submitted) + [old(item)]
      ensures item == EmptyItem(now)
    {
      submitted := submitted + [item];
      item := EmptyItem(now);
    }
  }
}
