/** The exceptions the services and their helpers throw, and the message each carries. */
module Errors {
  import opened Wrappers
  import Text

  datatype Error =
    | ClientNotFound(clientId: int)              // ClientNotFoundException
    | ConsultationNotFound(consultationId: int)  // ConsultationNotFoundException
    | ConsultationListEmpty                      // ConsultationListEmpty
    | NoSuchElement                              // Optional.get() on an empty Optional
    | IllegalArgument(detail: string)            // PageRequest.of, Month.valueOf
    | NullPointer                                // unboxing a null Double

  /** `exc.getMessage()`; `None` stands for a null message. */
  function Message(e: Error): Option<string>
  {
    match e
    case ClientNotFound(id) => Some("Client with id " + Text.LongToString(id) + " not found!")
    case ConsultationNotFound(id) => Some("Consultation with id " + Text.LongToString(id) + " not found!")
    case ConsultationListEmpty => Some("Consultation list is empty!")
    case NoSuchElement => Some("No value present")
    case IllegalArgument(detail) => Some(detail)
    case NullPointer => None
  }

  /** A not-found message names exactly one id: different ids give different messages. */
  lemma ClientNotFoundMessageNamesId(a: int, b: int)
    requires Message(ClientNotFound(a)) == Message(ClientNotFound(b))
    ensures a == b
  {
    var pre := "Client with id ";
    var sa, sb := Text.LongToString(a), Text.LongToString(b);
    assert (pre + sa + " not found!")[|pre|..|pre| + |sa|] == sa;
    if |sa| == |sb| {
      assert (pre + sb + " not found!")[|pre|..|pre| + |sb|] == sb;
    }
    Text.LongToStringInjective(a, b);
  }
}
