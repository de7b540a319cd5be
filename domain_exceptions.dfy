/**
 * The domain's exceptions (`NotFoundException`, `ValidationException`,
 * `BusinessRuleException`) together with the framework exceptions the HTTP layer
 * distinguishes. A thrown exception is a value of `Exception`; an operation that may
 * throw returns `Result<T, Exception>`.
 */
module DomainExceptions {

  import opened Wrappers

  datatype Exception =
    | /** `new NotFoundException(message)`: the message is kept verbatim. */
      NotFoundException(message: string)
    | /** `new ValidationException(message)` (`inner` absent) or `(message, innerException)`. */
      ValidationException(message: string, inner: Option<Exception>)
    | /** `new BusinessRuleException(message)`. */
      BusinessRuleException(message: string)
    | /** .NET's `UnauthorizedAccessException`. */
      UnauthorizedAccessException(message: string)
    | /** Any other exception, for instance a failure of the document store. */
      OtherException(message: string)

  const NotFoundPrefix: string := "Entity \""
  const NotFoundMiddle: string := "\" ("
  const NotFoundSuffix: string := ") was not found."

  /** The message of `new NotFoundException(name, key)`. */
  function NotFoundMessage(name: string, key: string): string {
    NotFoundPrefix + name + NotFoundMiddle + key + NotFoundSuffix
  }

  /** `new NotFoundException(name, key)`, the way services report an absent entity. */
  function NotFound(name: string, key: string): (e: Exception)
    ensures e.NotFoundException?
    ensures |e.message| == |name| + |key| + 27
    ensures e.message[..8] == NotFoundPrefix && e.message[|e.message| - 16..] == NotFoundSuffix
  {
    NotFoundException(NotFoundMessage(name, key))
  }

  /**
   * Reads the key back out of a not-found message about entity `name`:
   * `None` when `message` does not have that shape.
   */
  function NotFoundKey(message: string, name: string): (key: Option<string>)
  {
    var head := NotFoundPrefix + name + NotFoundMiddle;
    if |head| + |NotFoundSuffix| <= |message|
       && message[..|head|] == head
       && message[|message| - |NotFoundSuffix|..] == NotFoundSuffix
    then Some(message[|head|..|message| - |NotFoundSuffix|])
    else None
  }

  /** The key can always be recovered from the message, and every such message names one key. */
  lemma NotFoundMessageRoundTrip(name: string, key: string, message: string)
    ensures NotFoundKey(NotFoundMessage(name, key), name) == Some(key)
    ensures NotFoundKey(message, name).Some? ==> message == NotFoundMessage(name, NotFoundKey(message, name).value)
  {
    var head := NotFoundPrefix + name + NotFoundMiddle;
    var m := NotFoundMessage(name, key);
    assert m == head + key + NotFoundSuffix;
    assert m[..|head|] == head;
    assert m[|m| - |NotFoundSuffix|..] == NotFoundSuffix;
    assert m[|head|..|m| - |NotFoundSuffix|] == key;
    if NotFoundKey(message, name).Some? {
      var k := message[|head|..|message| - |NotFoundSuffix|];
      assert message == message[..|head|] + k + message[|message| - |NotFoundSuffix|..];
    }
  }

  /** Two not-found messages about the same entity kind agree exactly when their keys do. */
  lemma NotFoundMessageInjective(name: string, key1: string, key2: string)
    ensures NotFoundMessage(name, key1) == NotFoundMessage(name, key2) <==> key1 == key2
  {
    NotFoundMessageRoundTrip(name, key1, NotFoundMessage(name, key1));
    NotFoundMessageRoundTrip(name, key2, NotFoundMessage(name, key2));
  }
}
