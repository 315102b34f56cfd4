/** The numeric conversions of JavaScript the loader applies to token text. */
module Conversions {

  /**
   * `parseFloat` and `parseInt` of JavaScript, left abstract: the loader never looks at a
   * number it converts, it only stores it (or, for `Tr`, subtracts it from one).
   */
  datatype Numerals = Numerals(parseFloat: string -> real, parseInt: string -> int)
}
