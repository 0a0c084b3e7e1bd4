/** Small datatypes shared by every module, and the seven flavors of the campaign. */
module Prelude {

  datatype Option<+T> = None | Some(value: T)

  datatype Result<+T, +E> = Ok(value: T) | Err(error: E)

  /** One city (flavor, SKU). Its printed prefix and check index live in `Codes`. */
  datatype City = Paris | Berlin | Pattaya | Mexico | Madrid | Tokyo | Moscow
}
