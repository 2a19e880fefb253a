/**
 * The browser's `localStorage`: a string-to-string map that survives reloads.
 * `getItem` answers null (None) for a key that was never set.
 */
module Browser {
  import opened Wrappers

  /** Removing two keys one after the other removes both. */
  lemma RemoveBoth(items: map<string, string>, a: string, b: string)
    ensures items - {a} - {b} == items - {a, b}
  {
  }

  class LocalStorage {
    var items: map<string, string>

    constructor (initial: map<string, string>)
      ensures items == initial
    {
      items := initial;
    }

    function GetItem(key: string): (r: Option<string>)
      reads this
      ensures r.Some? <==> key in items
      ensures r.Some? ==> r.value == items[key]
    {
      if key in items then Some(items[key]) else None
    }

    method SetItem(key: string, value: string)
      modifies this
      ensures items == old(items)[key := value]
    {
      items := items[key := value];
    }

    method RemoveItem(key: string)
      modifies this
      ensures items == old(items) - {key}
    {
      items := items - {key};
    }
  }
}
