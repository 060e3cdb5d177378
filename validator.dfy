/** The form-field validator directive: the server and client messages of one
    field, when they are shown, and the icon classes of the field. */
module Validation {
  import opened Records

  /** The form control of the field: `$dirty`, the validity of every key other
      than `serverResponse`, and the `serverResponse` key; `$valid` is their
      conjunction and `$invalid` its negation. */
  datatype Control = Control(dirty: bool, othersValid: bool, serverResponse: bool)

  predicate ControlValid(c: Control)
  {
    c.othersValid && c.serverResponse
  }

  /** `$setValidity('serverResponse', v)` on the control, when there is one. */
  function SetServerResponse(field: Option<Control>, v: bool): (r: Option<Control>)
    ensures r.Some? <==> field.Some?
    ensures r.Some? ==> r.value.serverResponse == v && r.value.dirty == field.value.dirty
                        && r.value.othersValid == field.value.othersValid
  {
    if field.Some? then Some(field.value.(serverResponse := v)) else None
  }

  /** The label prefix put in front of every message. */
  function Prefix(labelAttr: Option<string>): (r: string)
    ensures labelAttr.Some? && labelAttr.value != "" ==> r == "<strong>" + labelAttr.value + ":</strong> "
    ensures !(labelAttr.Some? && labelAttr.value != "") ==> r == ""
  {
    if labelAttr.Some? && labelAttr.value != "" then "<strong>" + labelAttr.value + ":</strong> " else ""
  }

  /** What `server` may receive: nothing (a falsy value), one message, or a
      list of messages (an array, or the values of an object). */
  datatype ServerData = NoServerData | ServerText(text: string) | ServerList(items: seq<string>)

  /** The messages `server` pushes; empty data (`!data || $.isEmptyObject(data)`) pushes none. */
  function ServerMessages(data: ServerData): seq<string>
  {
    match data
    case NoServerData => []
    case ServerText(t) => if t == "" then [] else [t]
    case ServerList(items) => items
  }

  /** A field of the object given to `client`: absent (or neither string nor
      array), one string, or an array. */
  datatype Entry = Absent | One(text: string) | Many(items: seq<string>)

  /** What `client` may receive: a falsy value, an array of errors, or an
      object with `errors` and `tips`. */
  datatype ClientData = NoClientData | ErrorArray(list: seq<string>) | Report(errors: Entry, tips: Entry)

  /** A string is wrapped in a one-element array, an array taken as it is. */
  function EntryItems(e: Entry): seq<string>
  {
    match e
    case Absent => []
    case One(t) => [t]
    case Many(items) => items
  }

  function ClientErrorItems(data: ClientData): seq<string>
  {
    match data
    case NoClientData => []
    case ErrorArray(list) => list
    case Report(errors, _) => EntryItems(errors)
  }

  function ClientTipItems(data: ClientData): seq<string>
  {
    match data
    case Report(_, tips) => EntryItems(tips)
    case _ => []
  }

  /** `prefix + item` for every item, in order. */
  function Prefixed(prefix: string, items: seq<string>): (r: seq<string>)
    ensures |r| == |items|
    ensures forall i :: 0 <= i < |r| ==> r[i] == prefix + items[i]
  {
    seq(|items|, i requires 0 <= i < |items| => prefix + items[i])
  }

  /** Every message in `list` starts with `prefix`. */
  predicate AllPrefixed(prefix: string, list: seq<string>)
  {
    forall m :: m in list ==> prefix <= m
  }

  /** Appending prefixed items to a list of prefixed messages keeps every message prefixed. */
  lemma PrefixedKeepsPrefix(prefix: string, list: seq<string>, items: seq<string>)
    requires AllPrefixed(prefix, list)
    ensures AllPrefixed(prefix, list + Prefixed(prefix, items))
  {
    var added := Prefixed(prefix, items);
    forall m | m in list + added ensures prefix <= m {
      if m !in list {
        var i :| 0 <= i < |added| && added[i] == m;
        assert m == prefix + items[i];
        assert m[..|prefix|] == prefix;
      }
    }
  }

  class Validator {
    const prefix: string
    const noclientval: bool
    var name: Option<Control>
    var changed: bool
    var focus: bool
    var serverErrors: seq<string>
    var clientErrors: seq<string>
    var clientTips: seq<string>

    /** Every message shown, server or client, error or tip, starts with the label prefix. */
    ghost predicate Valid()
      reads this
    {
      AllPrefixed(prefix, serverErrors) && AllPrefixed(prefix, clientErrors) && AllPrefixed(prefix, clientTips)
    }

    /** The `pre` and `post` link steps: prefix from the label, everything else cleared. */
    constructor(labelAttr: Option<string>, control: Option<Control>, noClientValidation: bool)
      ensures prefix == Prefix(labelAttr) && noclientval == noClientValidation && name == control
      ensures !changed && !focus && serverErrors == [] && clientErrors == [] && clientTips == []
      ensures Valid()
    {
      prefix := Prefix(labelAttr);
      noclientval := noClientValidation;
      name := control;
      changed := false;
      focus := false;
      serverErrors := [];
      clientErrors := [];
      clientTips := [];
    }

    /** `iconClasses`: nothing without a control; otherwise `show` when dirty,
        then exactly one of `valid` and `invalid`. */
    function IconClasses(): (r: seq<string>)
      reads this
      ensures name.None? ==> r == []
      ensures name.Some? ==> |r| == (if name.value.dirty then 2 else 1)
      ensures name.Some? ==> ("show" in r <==> name.value.dirty)
      ensures name.Some? ==> r[|r| - 1] == (if ControlValid(name.value) then "valid" else "invalid")
      ensures name.Some? ==> ("valid" in r <==> ControlValid(name.value)) && ("invalid" in r <==> !ControlValid(name.value))
    {
      if name.None? then []
      else (if name.value.dirty then ["show"] else []) + [if ControlValid(name.value) then "valid" else "invalid"]
    }

    predicate ShowServerErrors()
      reads this
    {
      |serverErrors| > 0 && !changed
    }

    predicate ShowClientErrors()
      reads this
    {
      |clientErrors| > 0 && name.Some? && !ControlValid(name.value) && focus
    }

    predicate ShowClientTips()
      reads this
    {
      |clientTips| > 0 && name.Some? && (ControlValid(name.value) || (|clientErrors| == 0 && |serverErrors| == 0)) && focus
    }

    predicate Show()
      reads this
    {
      ShowClientErrors() || ShowClientTips() || ShowServerErrors()
    }

    /** Client errors and client tips are never shown at the same time, and
        nothing client-side is shown without focus or without a control. */
    lemma ClientDisplayExclusive()
      ensures !(ShowClientErrors() && ShowClientTips())
      ensures (ShowClientErrors() || ShowClientTips()) ==> focus && name.Some?
      ensures ShowClientErrors() ==> !ControlValid(name.value)
      ensures !focus ==> (Show() <==> ShowServerErrors())
    {
    }

    /** `on`: the pointer or the focus entered the field. */
    method FocusOn()
      requires Valid()
      modifies this
      ensures Valid()
      ensures focus
      ensures name == old(name) && changed == old(changed) && serverErrors == old(serverErrors)
      ensures clientErrors == old(clientErrors) && clientTips == old(clientTips)
    {
      focus := true;
    }

    /** `off`: focus is dropped unless the element still has the input focus. */
    method FocusOff(elementFocused: bool)
      requires Valid()
      modifies this
      ensures Valid()
      ensures focus == (old(focus) && elementFocused)
      ensures name == old(name) && changed == old(changed) && serverErrors == old(serverErrors)
      ensures clientErrors == old(clientErrors) && clientTips == old(clientTips)
    {
      if !elementFocused {
        focus := false;
      }
    }

    /** `changeWatch`: a keypress after a server error marks the field changed
        and clears the server's verdict, which hides the server errors. */
    method ChangeWatch()
      requires Valid()
      modifies this
      ensures Valid()
      ensures changed && name == SetServerResponse(old(name), true)
      ensures focus == old(focus) && serverErrors == old(serverErrors)
      ensures clientErrors == old(clientErrors) && clientTips == old(clientTips)
      ensures !ShowServerErrors()
    {
      changed := true;
      if name.Some? {
        name := Some(name.value.(serverResponse := true));
      }
    }

    /** `server(data, replace)`: unless `replace` is exactly false the old server
        errors are dropped, `changed` reset and the server's verdict cleared;
        non-empty data then marks the control invalid and appends its messages. */
    method Server(data: ServerData, replace: Option<bool>)
      requires Valid()
      modifies this
      ensures Valid()
      ensures var reset := replace != Some(false);
              var messages := ServerMessages(data);
        && serverErrors == (if reset then [] else old(serverErrors)) + Prefixed(prefix, messages)
        && changed == (if reset then false else old(changed))
        && name == (if messages != [] then SetServerResponse(old(name), false)
                    else if reset then SetServerResponse(old(name), true) else old(name))
      ensures focus == old(focus) && clientErrors == old(clientErrors) && clientTips == old(clientTips)
      ensures ServerMessages(data) != [] && !changed ==> ShowServerErrors()
      ensures replace != Some(false) && ServerMessages(data) == [] ==> !ShowServerErrors()
    {
      if replace != Some(false) {
        changed := false;
        serverErrors := [];
        if name.Some? {
          name := Some(name.value.(serverResponse := true));
        }
      }
      var messages := ServerMessages(data);
      if messages == [] {
        return;
      }
      if name.Some? {
        name := Some(name.value.(serverResponse := false));
      }
      serverErrors := AppendPrefixed(serverErrors, messages);
    }

    /** `client(data, replace)`: a truthy `replace` empties errors and tips first;
        then the errors and tips of `data` are appended, prefixed, in order. */
    method Client(data: ClientData, replace: bool)
      requires Valid()
      modifies this
      ensures Valid()
      ensures clientErrors == (if replace then [] else old(clientErrors)) + Prefixed(prefix, ClientErrorItems(data))
      ensures clientTips == (if replace then [] else old(clientTips)) + Prefixed(prefix, ClientTipItems(data))
      ensures name == old(name) && changed == old(changed) && focus == old(focus) && serverErrors == old(serverErrors)
    {
      if replace {
        clientErrors := [];
        clientTips := [];
      }
      if data.NoClientData? {
        return;
      }
      var errors := ClientErrorItems(data);
      var tips := ClientTipItems(data);
      clientErrors := AppendPrefixed(clientErrors, errors);
      clientTips := AppendPrefixed(clientTips, tips);
    }

    /** `angular.forEach(items, x => list.push(prefix + x))`. */
    method AppendPrefixed(list: seq<string>, items: seq<string>) returns (r: seq<string>)
      ensures r == list + Prefixed(prefix, items)
      ensures AllPrefixed(prefix, list) ==> AllPrefixed(prefix, r)
    {
      r := list;
      for i := 0 to |items|
        invariant r == list + Prefixed(prefix, items[..i])
      {
        assert Prefixed(prefix, items[..i + 1]) == Prefixed(prefix, items[..i]) + [prefix + items[i]];
        r := r + [prefix + items[i]];
      }
      assert items[..|items|] == items;
      if AllPrefixed(prefix, list) {
        PrefixedKeepsPrefix(prefix, list, items);
      }
    }
  }
}
