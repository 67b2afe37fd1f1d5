/** The Digest page's own state (app/page.tsx): the recent-searches list,
    the query being typed, the user messages handed to the chat hook, and
    the copy of the list kept in browser storage. */
module Session {
  import opened Optional
  import opened JsText
  import History
  import Messages

  class Home {
    /** `searchHistory`. */
    var history: seq<string>
    /** `inputValue`, the query field. */
    var input: string
    /** The user messages passed to `append`, oldest first. */
    var sent: seq<Messages.Message>
    /** What browser storage holds under `History.HistoryKey`, decoded;
        `None` when there is no entry or it is not valid JSON. */
    ghost var persisted: Option<seq<string>>

    /** A freshly rendered page, with storage holding `saved`. */
    constructor (ghost saved: Option<seq<string>>)
      ensures history == [] && input == "" && sent == [] && persisted == saved
    {
      history, input, sent := [], "", [];
      persisted := saved;
    }

    /** The mount effect: a decodable stored list replaces the (empty)
        initial list; a missing or corrupt entry is ignored. The decoded
        storage value is read through the parameter. */
    method LoadHistory(saved: Option<seq<string>>)
      requires saved == persisted
      modifies this`history
      ensures history == if saved.Some? then saved.value else old(history)
    {
      if saved.Some? {
        history := saved.value;
      }
    }

    /** `addToHistory`: the new list is both the page state and the stored
        value. */
    method AddToHistory(query: string)
      modifies this`history, this`persisted
      ensures history == History.Add(old(history), query)
      ensures persisted == Some(history)
    {
      history := History.Add(history, query);
      persisted := Some(history);
    }

    /** `removeFromHistory`: the new list is both the page state and the
        stored value. */
    method RemoveFromHistory(q: string)
      modifies this`history, this`persisted
      ensures history == History.Remove(old(history), q)
      ensures persisted == Some(history)
    {
      history := History.Remove(history, q);
      persisted := Some(history);
    }

    /** Typing in the query field. */
    method SetInput(value: string)
      modifies this`input
      ensures input == value
    {
      input := value;
    }

    /** `handleExampleClick`, for an example button or a recent-search
        button: the query goes to the history (trimmed) and is sent as a
        user message (as given). */
    method ClickQuery(query: string)
      modifies this`history, this`persisted, this`sent
      ensures history == History.Add(old(history), query)
      ensures persisted == Some(history)
      ensures sent == old(sent) + [Messages.UserMessage(query)]
    {
      AddToHistory(query);
      sent := sent + [Messages.UserMessage(query)];
    }

    /** `onFormSubmit`: a blank query changes nothing; any other query is
        trimmed, put in front of the history, sent as exactly one user
        message, and the field is cleared. */
    method SubmitForm()
      modifies this
      ensures IsBlank(old(input)) ==>
        && history == old(history) && persisted == old(persisted)
        && sent == old(sent) && input == old(input)
      ensures !IsBlank(old(input)) ==>
        && history == History.Add(old(history), old(input))
        && persisted == Some(history)
        && sent == old(sent) + [Messages.UserMessage(Trim(old(input)))]
        && input == ""
    {
      var query := input;
      var trimmed := Trim(query);
      TrimEmptyIffBlank(query);
      if trimmed != "" {
        History.AddTrimmed(history, query);
        ClickQuery(trimmed);
        input := "";
      }
    }
  }
}
