/**
 * The few operating-system values the model passes around: paths, Windows
 * errors and I/O errors. Their producers (the file system, COM, the Win32
 * API) are not part of this model; their results arrive as parameters.
 */
module Os {

  /** A filesystem path as its list of components; `Join(p, x)` is `p + [x]`. */
  type Path = seq<string>

  /** A `windows::core::Error`: its HRESULT as the signed 32-bit value the
      code compares, and the whole text its `Display` writes. How the
      windows crate composes that text from the system message and the
      code is not part of this model, so the text is taken as given. */
  datatype WinError = WinError(code: int, text: string)

  /** An `io::Error`, represented by its display text. */
  type IoError = string

  /** Reinterpret a 32-bit pattern as the `i32` Rust reads (`x as i32`). */
  function AsI32(bits: nat): (r: int)
    requires bits < 0x1_0000_0000
    ensures -0x8000_0000 <= r < 0x8000_0000
    ensures (r - bits) % 0x1_0000_0000 == 0
  {
    if bits < 0x8000_0000 then bits else bits - 0x1_0000_0000
  }

  /** How a path is shown in log text: components separated by a backslash. */
  function PathText(p: Path): string
  {
    if p == [] then "" else if |p| == 1 then p[0] else p[0] + "\\" + PathText(p[1..])
  }
}
