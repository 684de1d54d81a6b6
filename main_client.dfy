/**
 * The stand-in client `Manager` of src/main.cpp: its `dispatch` hands the
 * Python callback one default ReferenceData and then one default TopOfBook,
 * each with a default MessageInfo, and returns false; an exception the
 * callback raises is rethrown.  (Its `Config` is the one of `ClientConfig`.)
 *
 * The Python callback is modelled by whether it raises on a message.
 */
module MainClient {
  /** The messages `Manager::dispatch` delivers, all default-constructed. */
  datatype Message = ReferenceData | TopOfBook

  /** How `dispatch` ends: with a return value, or with the callback's exception propagating. */
  datatype Outcome = Returned(value: bool) | Propagated

  /** `Manager::dispatch`. */
  method Dispatch(raises: Message -> bool) returns (delivered: seq<Message>, outcome: Outcome)
    ensures delivered == [ReferenceData] || delivered == [ReferenceData, TopOfBook]
    ensures delivered == [ReferenceData] <==> raises(ReferenceData)
    ensures outcome == Propagated <==> exists m :: m in delivered && raises(m)
    ensures outcome != Returned(true)
  {
    delivered := [ReferenceData];
    if raises(ReferenceData) {
      return delivered, Propagated;
    }
    delivered := delivered + [TopOfBook];
    if raises(TopOfBook) {
      return delivered, Propagated;
    }
    outcome := Returned(false);
  }
}
