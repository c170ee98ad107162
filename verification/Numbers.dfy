module Numbers {
  /** A number as it arrives: finite, or NaN or an infinity. */
  datatype Number = Finite(value: real) | NotFinite
}
