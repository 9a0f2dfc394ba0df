/**
 * What the core makes visible outside itself, in the order it happens:
 * requests to the server, writes to the secure store, query-cache
 * operations, toasts and alerts.
 */
module Effects {
  import opened ProductTypes

  /** A value thrown by a failed request; only `Error` objects carry a message. */
  datatype Thrown = ErrorObject(message: string) | OtherValue

  datatype ApiCall =
    | SignInCall(username: string, password: string)
    | AddProductCall(newProduct: NewProduct)
    | EditProductCall(productId: string, modifiedProduct: ModifiedProduct)
    | DeleteProductCall(productId: string)

  datatype Effect =
    | Call(api: ApiCall)
    | StoreSet(key: string, value: string)
    | StoreDelete(key: string)
    | CacheInvalidate(filter: seq<string>)
    | CacheRemove(filter: seq<string>)
    | CacheReset(filter: seq<string>)
    | Toast(title: string, text: string)
    | Alert(title: string, message: string)

  const FailureTitle := "❌ Something went wrong"
  const FallbackMessage := "Please try again later."

  /** `error instanceof Error ? error.message : 'Please try again later.'` */
  function AlertMessage(t: Thrown): (m: string)
    ensures t.ErrorObject? ==> m == t.message
    ensures t.OtherValue? ==> m == FallbackMessage
  {
    match t
    case ErrorObject(msg) => msg
    case OtherValue => FallbackMessage
  }
}
