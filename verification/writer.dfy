/**
 The writer: every collected line has its ';' characters escaped, and the
 escaped lines are written out in list order, each followed by a newline.
 The file itself is not modelled; the text written to it is.
 */
module Writer {
  import opened Strings

  /**
   The per-line step: a line containing ';' is replaced by its escape and any
   other line is kept as it is, which is the same as escaping every line.
   */
  function EscapeLine(s: string): (r: string)
    ensures r == EscapeSemicolons(s)
  {
    ContainsChar(s, ';');
    if Contains(s, ";") then EscapeSemicolons(s)
    else
      EscapeWithoutSemicolon(s);
      s
  }

  /** The escape step over the whole list: one escaped line per line, in place. */
  function EscapeAll(lines: seq<string>): (r: seq<string>)
    ensures |r| == |lines|
    ensures forall i :: 0 <= i < |r| ==> r[i] == EscapeSemicolons(lines[i])
  {
    seq(|lines|, i requires 0 <= i < |lines| => EscapeLine(lines[i]))
  }

  /** Lines without ';' come through the escape step unchanged. */
  lemma {:induction false} EscapeAllWithoutSemicolons(lines: seq<string>)
    requires forall i :: 0 <= i < |lines| ==> ';' !in lines[i]
    ensures EscapeAll(lines) == lines
  {
    forall i | 0 <= i < |lines|
      ensures EscapeAll(lines)[i] == lines[i]
    {
      EscapeWithoutSemicolon(lines[i]);
    }
  }

  /** Each escaped line reads back, through `Unescape`, as the line it came from. */
  lemma {:induction false} EscapeAllReversible(lines: seq<string>)
    ensures forall i :: 0 <= i < |lines| ==> Unescape(EscapeAll(lines)[i]) == lines[i]
  {
    forall i | 0 <= i < |lines|
      ensures Unescape(EscapeAll(lines)[i]) == lines[i]
    {
      UnescapeEscape(lines[i]);
    }
  }

  /** Total number of characters over all lines. */
  function TotalLength(lines: seq<string>): nat {
    if |lines| == 0 then 0 else |lines[0]| + TotalLength(lines[1..])
  }

  /** The text written for `lines`: each line followed by a newline, in list order. */
  function Serialize(lines: seq<string>): (r: string)
    ensures |r| == TotalLength(lines) + |lines|
  {
    if |lines| == 0 then "" else lines[0] + "\n" + Serialize(lines[1..])
  }

  lemma {:induction false} SerializeAppend(a: seq<string>, b: seq<string>)
    ensures Serialize(a + b) == Serialize(a) + Serialize(b)
    decreases |a|
  {
    if |a| == 0 {
      assert a + b == b;
    } else {
      assert (a + b)[1..] == a[1..] + b;
      assert (a + b)[0] == a[0];
      SerializeAppend(a[1..], b);
    }
  }

  /**
   Reads a newline-terminated text back into its lines, as a consumer of the
   `.env` file would; text after the last newline forms one more line.
   */
  function SplitLines(s: string): seq<string>
    decreases |s|
  {
    if |s| == 0 then []
    else
      var i := IndexOf('\n', s);
      if i == |s| then [s] else [s[..i]] + SplitLines(s[i + 1..])
  }

  /** When no line holds a newline, the written text splits back into exactly the lines written. */
  lemma {:induction false} SplitSerialize(lines: seq<string>)
    requires forall k :: 0 <= k < |lines| ==> '\n' !in lines[k]
    ensures SplitLines(Serialize(lines)) == lines
    decreases |lines|
  {
    if |lines| > 0 {
      var rest := Serialize(lines[1..]);
      var s := Serialize(lines);
      assert s == lines[0] + ['\n'] + rest;
      IndexOfAfter('\n', lines[0], rest);
      assert s[..|lines[0]|] == lines[0];
      assert s[|lines[0]| + 1..] == rest;
      SplitSerialize(lines[1..]);
      assert lines == [lines[0]] + lines[1..];
    }
  }

  // ---------------------------------------------------------------------------
  // The loops of the source.

  /**
   The escape loop: walks the list by index and overwrites each line that
   contains ';' with its escape. It computes exactly `EscapeAll`.
   */
  method EscapeLines(envString: seq<string>) returns (escaped: seq<string>)
    ensures escaped == EscapeAll(envString)
  {
    escaped := envString;
    var index := 0;
    while index < |escaped|
      invariant 0 <= index <= |escaped| == |envString|
      invariant forall k :: 0 <= k < index ==> escaped[k] == EscapeSemicolons(envString[k])
      invariant forall k :: index <= k < |escaped| ==> escaped[k] == envString[k]
    {
      var es := escaped[index];
      ContainsChar(es, ';');
      if Contains(es, ";") {
        escaped := escaped[index := EscapeSemicolons(es)];
      } else {
        EscapeWithoutSemicolon(es);
      }
      index := index + 1;
    }
  }

  /** The write loop: appends each line and a newline to the output, in list order. */
  method WriteLines(envString: seq<string>) returns (contents: string)
    ensures contents == Serialize(envString)
  {
    contents := "";
    var i := 0;
    while i < |envString|
      invariant 0 <= i <= |envString|
      invariant contents == Serialize(envString[..i])
    {
      var env := envString[i];
      contents := contents + env + "\n";
      SerializeAppend(envString[..i], [env]);
      assert Serialize([env]) == env + "\n" by {
        assert [env][1..] == [];
      }
      assert envString[..i + 1] == envString[..i] + [env];
      i := i + 1;
    }
    assert envString[..i] == envString;
  }
}
