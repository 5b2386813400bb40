/**
 * The text-decoding option of the typecast package: a type takes part when
 * it, or a pointer to it, implements `encoding.TextUnmarshaler`. The method
 * body is user code; it is `Runtime.unmarshalText`, called with the raw text
 * exactly as received.
 */
module TypecastText {
  import opened Base
  import opened Reflect
  import opened Errors
  import opened Host

  /** `TextUnmarshalerOptionType.Supports`. */
  predicate TextSupports(t: Ty)
  {
    IsTextUnmarshaler(t) || IsTextUnmarshaler(PointerTo(t))
  }

  /**
   * `TextUnmarshalerOptionType.Cast`. With a value receiver the method runs
   * on a copy of a fresh zero value, so what the caller gets back is that
   * zero value; with only a pointer receiver the method fills a freshly
   * allocated value and the caller gets the pointer to it.
   */
  function TextCast(rt: Runtime, raw: string, t: Ty): (r: Result<Value, Error>)
    // Without either receiver the decoder is not consulted.
    ensures !TextSupports(t) <==> r == Failure(UnsupportedType(t))
    // Otherwise the cast succeeds exactly when the decoder does ...
    ensures TextSupports(t) ==> (r.Success? <==> rt.unmarshalText(t, raw).Success?)
    // ... and its failure is the decoder's error, tagged with the type and the untrimmed text.
    ensures TextSupports(t) && r.Failure? ==>
      && r.error == ParseFailed(t, raw, rt.unmarshalText(t, raw).error)
      && UnwrapOne(r.error) == Some(rt.unmarshalText(t, raw).error)
      && Is(r.error, rt.unmarshalText(t, raw).error)
    // A value receiver wins, and the decoding happens on a copy: the zero value comes back.
    ensures IsTextUnmarshaler(t) && r.Success? ==> r.value == Zero(t)
    // With only a pointer receiver the result is a new pointer to the decoded value of type `t`.
    ensures !IsTextUnmarshaler(t) && r.Success? ==>
      r.value == PtrV(PointerTo(t), Some(rt.unmarshalText(t, raw).value.(t := t)))
  {
    match DecodeCapOf(t)
    case NoDecode => Failure(UnsupportedType(t))
    case ValueReceiver =>
      (match rt.unmarshalText(t, raw)
       case Failure(e) => Failure(ParseFailed(t, raw, e))
       case Success(_) => Success(Zero(t)))
    case PointerReceiver =>
      match rt.unmarshalText(t, raw)
      case Failure(e) => Failure(ParseFailed(t, raw, e))
      case Success(decoded) => Success(PtrV(PointerTo(t), Some(decoded.(t := t))))
  }

  /** The option supports a type exactly when one of the two receivers gives it the capability. */
  lemma TextSupportsCapability(t: Ty)
    ensures TextSupports(t) <==> DecodeCapOf(t) != NoDecode
  {
  }
}
