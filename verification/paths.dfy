/** `pathlib.Path` as far as the manifest layer observes it. */
module Paths {

  /** A path, known by the text `str(path)` gives back. */
  datatype Path = Path(text: string)

  /** `Path(s)`: the empty string names the current directory, so
      `Path("") == Path(".") == Path()`; any other text is kept as given. */
  function ToPath(s: string): (p: Path)
    ensures p.text != ""
    ensures s != "" ==> p.text == s
  {
    if s == "" then Path(".") else Path(s)
  }

  /** `str(path)`. */
  function PathStr(p: Path): string
  {
    p.text
  }
}
