/**
 * utils/json_input.py: `read_json_list_of_dicts`. The line read from the
 * terminal and `json.loads` are parameters; every `sys.exit(1)` becomes an
 * error value naming the message printed before it.
 */
module JsonInput {
  import opened Wrappers
  import opened Text
  import opened Json

  datatype InputError =
    | EmptyInput       // "Input required but empty."
    | InvalidJson      // "Invalid JSON: ..."
    | ObjectNotList    // "Expected a JSON array of objects, got a JSON object."
    | NotArrayOrObject // "Expected a JSON array or object."
    | ItemNotObject    // "Each item must be a JSON object."

  predicate AllDicts(items: seq<Value>)
  {
    forall i :: 0 <= i < |items| ==> items[i].Obj?
  }

  /**
   * `read_json_list_of_dicts(prompt, allow_single_object, allow_empty)` given
   * the line typed (`line`) and the JSON decoder (`parse`, `None` when it
   * raises). `Success(None)` is Python's `None`.
   */
  function ReadJsonListOfDicts(line: string, parse: string -> Option<Value>,
                               allowSingleObject: bool, allowEmpty: bool): (r: Result<Option<seq<Value>>, InputError>)
    // A list returned is a list of objects: the decoded array itself or the decoded object alone.
    ensures r.Success? && r.value.Some? ==>
      && AllDicts(r.value.value)
      && Strip(line) != "" && parse(Strip(line)).Some?
      && var data := parse(Strip(line)).value;
         (data.Arr? && r.value.value == data.items) || (data.Obj? && r.value.value == [data])
    // An empty array gives an empty list, never `None`.
    ensures Strip(line) != "" && parse(Strip(line)) == Some(Arr([])) ==> r == Success(Some([]))
  {
    var raw := Strip(line);
    if raw == "" then
      if allowEmpty then Success(None) else Failure(EmptyInput)
    else match parse(raw)
      case None => Failure(InvalidJson)
      case Some(data) =>
        var items :=
          if data.Obj? then
            if allowSingleObject then Success([data]) else Failure(ObjectNotList)
          else if data.Arr? then Success(data.items)
          else Failure(NotArrayOrObject);
        match items
        case Failure(e) => Failure(e)
        case Success(list) => if AllDicts(list) then Success(Some(list)) else Failure(ItemNotObject)
  }

  /** Blank input is `None` when allowed and an error otherwise; it never reaches the decoder. */
  lemma BlankInput(line: string, parse: string -> Option<Value>, allowSingleObject: bool, allowEmpty: bool)
    ensures var r := ReadJsonListOfDicts(line, parse, allowSingleObject, allowEmpty);
      && (r == Success(None) <==> Strip(line) == "" && allowEmpty)
      && (r == Failure(EmptyInput) <==> Strip(line) == "" && !allowEmpty)
  {
  }

  /**
   * For non-blank input that decodes to `data`: an object is wrapped as `[data]`
   * only when single objects are allowed, a value that is neither an array nor
   * an object is refused, and a list is returned as it is exactly when all of
   * its items are objects.
   */
  lemma DecodedShapes(line: string, parse: string -> Option<Value>, allowSingleObject: bool, allowEmpty: bool)
    requires Strip(line) != ""
    ensures var r := ReadJsonListOfDicts(line, parse, allowSingleObject, allowEmpty);
      && (parse(Strip(line)).None? ==> r == Failure(InvalidJson))
      && (parse(Strip(line)).Some? ==>
            var data := parse(Strip(line)).value;
            && (data.Obj? && allowSingleObject ==> r == Success(Some([data])))
            && (data.Obj? && !allowSingleObject ==> r == Failure(ObjectNotList))
            && (!data.Obj? && !data.Arr? ==> r == Failure(NotArrayOrObject))
            && (data.Arr? ==> (r == Success(Some(data.items)) <==> AllDicts(data.items)))
            && (data.Arr? && !AllDicts(data.items) ==> r == Failure(ItemNotObject)))
  {
  }
}
