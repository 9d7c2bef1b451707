/** The text of the error the plugin throws when validation fails: the
    validator's messages joined with newlines (JavaScript
    `errors.join('\n')`), and the inverse reading `text.split('\n')`. */
module ErrorText {

  /** `parts.join('\n')`: no separator before the first part or after the
      last; the empty list gives the empty string. */
  function JoinLines(parts: seq<string>): string
  {
    if |parts| == 0 then ""
    else if |parts| == 1 then parts[0]
    else parts[0] + "\n" + JoinLines(parts[1..])
  }

  /** `text.split('\n')`: the pieces between newlines; always at least one. */
  function SplitLines(text: string): (r: seq<string>)
    ensures |r| > 0
  {
    if text == [] then [""]
    else
      var rest := SplitLines(text[1..]);
      if text[0] == '\n' then [""] + rest else [[text[0]] + rest[0]] + rest[1..]
  }

  /** A newline-free prefix sticks to the first piece of what follows it. */
  lemma {:induction false} SplitLinesPrefix(line: string, tail: string)
    requires '\n' !in line
    ensures SplitLines(line + tail) == [line + SplitLines(tail)[0]] + SplitLines(tail)[1..]
  {
    var after := SplitLines(tail);
    if line != [] {
      assert (line + tail)[1..] == line[1..] + tail;
      SplitLinesPrefix(line[1..], tail);
      assert [line[0]] + (line[1..] + after[0]) == line + after[0];
    } else {
      assert line + tail == tail;
      assert line + after[0] == after[0];
      assert [after[0]] + after[1..] == after;
    }
  }

  /** Splitting the thrown text at newlines recovers every message, as long
      as no message contains a newline itself. */
  lemma {:induction false} SplitJoinLines(parts: seq<string>)
    requires |parts| > 0
    requires forall i :: 0 <= i < |parts| ==> '\n' !in parts[i]
    ensures SplitLines(JoinLines(parts)) == parts
  {
    if |parts| == 1 {
      SplitLinesPrefix(parts[0], "");
      assert parts[0] + "" == parts[0];
    } else {
      var rest := JoinLines(parts[1..]);
      SplitJoinLines(parts[1..]);
      assert parts[0] + "\n" + rest == parts[0] + ("\n" + rest);
      SplitLinesPrefix(parts[0], "\n" + rest);
      assert ("\n" + rest)[0] == '\n' && ("\n" + rest)[1..] == rest;
      var pieces := SplitLines("\n" + rest);
      assert pieces == [""] + parts[1..];
      assert parts[0] + pieces[0] == parts[0];
      assert parts == [parts[0]] + parts[1..];
    }
  }

  /** `part` occurs in `text` starting at offset `o`. */
  predicate OccursAt(text: string, part: string, o: int)
  {
    0 <= o <= |text| - |part| && text[o..o + |part|] == part
  }

  /** Every message appears, unchanged, somewhere in the thrown text. */
  lemma {:induction false} JoinLinesContains(parts: seq<string>, i: nat)
    requires i < |parts|
    ensures exists o :: OccursAt(JoinLines(parts), parts[i], o)
  {
    var text := JoinLines(parts);
    if |parts| == 1 {
      assert OccursAt(text, parts[i], 0);
    } else if i == 0 {
      assert text[0..|parts[0]|] == parts[0];
      assert OccursAt(text, parts[i], 0);
    } else {
      JoinLinesContains(parts[1..], i - 1);
      var rest := JoinLines(parts[1..]);
      assert parts[1..][i - 1] == parts[i];
      var o :| OccursAt(rest, parts[i], o);
      var shift := |parts[0]| + 1;
      assert text == (parts[0] + "\n") + rest;
      assert text[shift + o..shift + o + |parts[i]|] == rest[o..o + |parts[i]|];
      assert OccursAt(text, parts[i], shift + o);
    }
  }
}
