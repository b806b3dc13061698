/**
 * The browser facilities the auth pages use: `sessionStorage` as a string map,
 * and the router's `navigate` as the list of paths navigated to, in order.
 */
module Session {
  import opened Maybe

  /** The session key under which a protected page remembers where the visitor
      was going. */
  const RedirectKey := "redirectAfterLogin"

  const DefaultLanding := "/dashboard"

  class Browser {
    var storage: map<string, string>
    var history: seq<string>

    constructor (storage: map<string, string>)
      ensures this.storage == storage && history == []
    {
      this.storage := storage;
      history := [];
    }

    /** `sessionStorage.getItem(key)`: `None` plays `null`. */
    function GetItem(key: string): (r: Option<string>)
      reads this
      ensures r.Some? <==> key in storage
      ensures r.Some? ==> r.value == storage[key]
    {
      if key in storage then Some(storage[key]) else None
    }

    method SetItem(key: string, value: string)
      modifies this
      ensures storage == old(storage)[key := value] && history == old(history)
    {
      storage := storage[key := value];
    }

    method RemoveItem(key: string)
      modifies this
      ensures storage == old(storage) - {key} && history == old(history)
    {
      storage := storage - {key};
    }

    method Navigate(path: string)
      modifies this
      ensures history == old(history) + [path] && storage == old(storage)
    {
      history := history + [path];
    }
  }

  /** `sessionStorage.getItem('redirectAfterLogin') || '/dashboard'`: the stored path,
      unless it is missing or empty. */
  function RedirectTarget(storage: map<string, string>): (path: string)
    ensures RedirectKey in storage && storage[RedirectKey] != "" ==> path == storage[RedirectKey]
    ensures RedirectKey !in storage || storage[RedirectKey] == "" ==> path == DefaultLanding
  {
    if RedirectKey in storage && storage[RedirectKey] != "" then storage[RedirectKey] else DefaultLanding
  }
}
