/** Texts used as keys of maps. */
module Texts {
  datatype Text = Text(chars: string)

  const NO_TEXT := Text("")
}
