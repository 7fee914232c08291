/** Option and Result, and the errors the product controller forwards to the error handler. */
module Wrappers {

  datatype Option<+T> = None | Some(value: T) {
    /** The value, or `default` when absent (a query parameter left out of the request). */
    function GetOr(default: T): T {
      match this
      case Some(v) => v
      case None => default
    }
  }

  /** The failures the controller raises itself or runs into. */
  datatype Error =
    | ProductNotFound       // getProductById: "product isn't found"; updateProduct: reading a field of null
    | UnresolvedReference   // searchForProduct: reading `name` of a populated reference that is null
    | NoFilesField          // addProduct: calling `map` on an undefined `req.files`

  datatype Result<+T> = Ok(value: T) | Err(error: Error)
}
