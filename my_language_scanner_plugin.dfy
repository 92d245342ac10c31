/** The plain-text fallback scanner: one Line node per physical line, linked
    to the following line and owned, in order, by one file node. */
module MyLanguageScanner {

  const Extension: string := ".myLanguage"

  /** `s` ends with `suffix`, compared character by character from the end. */
  function EndsWith(s: string, suffix: string): (r: bool)
    ensures r <==> |suffix| <= |s| && s[|s| - |suffix|..] == suffix
  {
    if suffix == [] then true
    else if s == [] then false
    else
      s[|s| - 1] == suffix[|suffix| - 1] && EndsWith(s[..|s| - 1], suffix[..|suffix| - 1])
  }

  /** The plugin takes a file exactly when its path ends with ".myLanguage". */
  function Accepts(path: string): (r: bool)
    ensures r <==> exists stem :: path == stem + Extension
  {
    var r := EndsWith(path, Extension);
    if r then
      assert path == path[..|path| - |Extension|] + Extension;
      r
    else r
  }

  /** A Line node: its text, its 0-based number and the HAS_NEXT edge. */
  class LineDescriptor {
    var value: string
    var lineNumber: int
    var next: LineDescriptor?

    constructor ()
      ensures value == "" && lineNumber == 0 && next == null
    {
      value := "";
      lineNumber := 0;
      next := null;
    }
  }

  /** The file node with its ordered HAS_LINE list. */
  class MyLanguageFileDescriptor {
    var lines: seq<LineDescriptor>

    constructor ()
      ensures lines == []
    {
      lines := [];
    }
  }

  /** Reads `input` line by line (the stream is given as its sequence of
      lines) into one fresh file node and one fresh Line node per line. */
  method Scan(input: seq<string>) returns (file: MyLanguageFileDescriptor)
    ensures fresh(file)
    ensures |file.lines| == |input|
    ensures forall i :: 0 <= i < |input| ==> fresh(file.lines[i])
    ensures forall i, j :: 0 <= i < j < |input| ==> file.lines[i] != file.lines[j]
    ensures forall i :: 0 <= i < |input| ==> file.lines[i].value == input[i] && file.lines[i].lineNumber == i
    ensures forall i :: 0 <= i < |input| - 1 ==> file.lines[i].next == file.lines[i + 1]
    ensures |input| > 0 ==> file.lines[|input| - 1].next == null
  {
    file := new MyLanguageFileDescriptor();
    var reader := 0;
    var lineNumber := 0;
    var previousLineDescriptor: LineDescriptor? := null;
    while reader < |input|
      invariant 0 <= reader <= |input|
      invariant lineNumber == reader && |file.lines| == reader
      invariant previousLineDescriptor == if reader == 0 then null else file.lines[reader - 1]
      invariant forall i :: 0 <= i < reader ==> fresh(file.lines[i])
      invariant forall i, j :: 0 <= i < j < reader ==> file.lines[i] != file.lines[j]
      invariant forall i :: 0 <= i < reader ==> file.lines[i].value == input[i] && file.lines[i].lineNumber == i
      invariant forall i :: 0 <= i < reader - 1 ==> file.lines[i].next == file.lines[i + 1]
      invariant reader > 0 ==> file.lines[reader - 1].next == null
    {
      var line := input[reader];
      reader := reader + 1;
      var currentLineDescriptor := new LineDescriptor();
      currentLineDescriptor.value := line;
      currentLineDescriptor.lineNumber := lineNumber;
      lineNumber := lineNumber + 1;
      if previousLineDescriptor != null {
        previousLineDescriptor.next := currentLineDescriptor;
      }
      previousLineDescriptor := currentLineDescriptor;
      file.lines := file.lines + [currentLineDescriptor];
    }
  }
}
