/** The slash-command parser of commands.py: "/cmd rest of line" splits into the command
    name and its argument text, the way `text.split(maxsplit=1)` cuts it. */
module Commands {
  import opened Values

  predicate NoSpace(s: string) {
    forall k :: 0 <= k < |s| ==> !IsSpace(s[k])
  }

  /** The index of the first whitespace character at or after `i`, or `|s|`. */
  function TokenEnd(s: string, i: nat): (e: nat)
    requires i <= |s|
    ensures i <= e <= |s|
    ensures NoSpace(s[i..e])
    ensures e < |s| ==> IsSpace(s[e])
    decreases |s| - i
  {
    if i == |s| || IsSpace(s[i]) then i else TokenEnd(s, i + 1)
  }

  /** The index of the first non-whitespace character at or after `i`, or `|s|`. */
  function SkipSpace(s: string, i: nat): (a: nat)
    requires i <= |s|
    ensures i <= a <= |s|
    ensures AllSpace(s[i..a])
    ensures a < |s| ==> !IsSpace(s[a])
    decreases |s| - i
  {
    if i == |s| || !IsSpace(s[i]) then i else SkipSpace(s, i + 1)
  }

  lemma {:induction false} RStripTrailing(x: string, w: string)
    requires NoSpace(x) && AllSpace(w)
    ensures RStrip(x + w) == x
    decreases |w|
  {
    if w == [] {
      assert x + w == x;
      if x != [] { assert !IsSpace(x[|x| - 1]); }
    } else {
      var w' := w[..|w| - 1];
      assert (x + w)[..|x + w| - 1] == x + w';
      RStripTrailing(x, w');
    }
  }

  /** `parse(text)`: None unless the text starts with a slash; otherwise the first
      whitespace-delimited token without its slash, and everything after the whitespace that
      follows it (trailing whitespace kept), or `''` when there is nothing after it. */
  function Parse(text: string): (r: Option<(string, string)>)
    ensures r.None? <==> !(|text| > 0 && text[0] == '/')
    ensures r.Some? ==> NoSpace(r.value.0)
    ensures r.Some? && r.value.1 != "" ==>
      !IsSpace(r.value.1[0]) &&
      exists ws :: |ws| > 0 && AllSpace(ws) && text == "/" + r.value.0 + ws + r.value.1
    ensures r.Some? && r.value.1 == "" ==>
      r.value.0 == RStrip(text[1..]) &&
      exists ws :: AllSpace(ws) && text == "/" + r.value.0 + ws
  {
    if |text| > 0 && text[0] == '/' then
      var e := TokenEnd(text, 1);
      var a := SkipSpace(text, e);
      if a < |text| then
        ArgumentSplit(text, e, a);
        Some((text[1..e], text[a..]))
      else
        BareSplit(text, e);
        Some((RStrip(text[1..]), ""))
    else
      None
  }

  /** The line cut into slash, command, the whitespace after it, and the argument. */
  lemma ArgumentSplit(text: string, e: nat, a: nat)
    requires 1 <= e <= a < |text| && text[0] == '/'
    requires AllSpace(text[e..a]) && IsSpace(text[e]) && !IsSpace(text[a])
    ensures exists ws :: |ws| > 0 && AllSpace(ws) && text == "/" + text[1..e] + ws + text[a..]
  {
    assert text == "/" + text[1..e] + text[e..a] + text[a..];
  }

  /** A line that is all whitespace after its command: the command is the stripped rest. */
  lemma BareSplit(text: string, e: nat)
    requires 1 <= e <= |text| && text[0] == '/'
    requires NoSpace(text[1..e]) && AllSpace(text[e..|text|])
    ensures text[1..e] == RStrip(text[1..])
    ensures exists ws :: AllSpace(ws) && text == "/" + text[1..e] + ws
  {
    assert text[1..] == text[1..e] + text[e..];
    RStripTrailing(text[1..e], text[e..]);
    assert text == "/" + text[1..e] + text[e..];
  }

  lemma {:induction false} TokenEndOf(s: string, i: nat, e: nat)
    requires i <= e <= |s|
    requires NoSpace(s[i..e]) && (e < |s| ==> IsSpace(s[e]))
    ensures TokenEnd(s, i) == e
    decreases e - i
  {
    if i < e {
      assert s[i] == s[i..e][0];
      assert s[i + 1..e] == s[i..e][1..];
      TokenEndOf(s, i + 1, e);
    }
  }

  lemma {:induction false} SkipSpaceOf(s: string, i: nat, a: nat)
    requires i <= a <= |s|
    requires AllSpace(s[i..a]) && (a < |s| ==> !IsSpace(s[a]))
    ensures SkipSpace(s, i) == a
    decreases a - i
  {
    if i < a {
      assert s[i] == s[i..a][0];
      assert s[i + 1..a] == s[i..a][1..];
      SkipSpaceOf(s, i + 1, a);
    }
  }

  /** Conversely, every command line of the shape "/" + command + whitespace + argument, with
      a command free of whitespace and an argument that starts with a non-space, parses back
      into exactly that command and argument. */
  lemma ParseOfCommandLine(command: string, ws: string, arg: string)
    requires NoSpace(command) && |ws| > 0 && AllSpace(ws)
    requires arg != "" && !IsSpace(arg[0])
    ensures Parse("/" + command + ws + arg) == Some((command, arg))
  {
    var text := "/" + command + ws + arg;
    var e := 1 + |command|;
    var a := e + |ws|;
    assert text[1..e] == command;
    assert text[e..a] == ws;
    assert text[a..] == arg;
    TokenEndOf(text, 1, e);
    SkipSpaceOf(text, e, a);
  }

  /** A lone command, possibly followed by whitespace, parses with an empty argument. */
  lemma ParseOfBareCommand(command: string, ws: string)
    requires NoSpace(command) && AllSpace(ws)
    ensures Parse("/" + command + ws) == Some((command, ""))
  {
    var text := "/" + command + ws;
    var e := 1 + |command|;
    assert text[1..e] == command;
    assert text[e..] == ws;
    assert text[1..] == command + ws;
    TokenEndOf(text, 1, e);
    SkipSpaceOf(text, e, |text|);
    RStripTrailing(command, ws);
  }
}
