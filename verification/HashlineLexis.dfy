/** Which lines the Hashline parser takes for headers, registers and moves, in terms of their characters. */
module HashlineLexis {
  import opened Common
  import opened Text
  import opened HashlinePatch
  import opened HashlineLanguage

  // ---------------------------------------------------------------- headers

  /** A line is a header exactly when it is `[PATH#TAG]`, with a path that is not empty and holds neither
      `#` nor a line end, and a tag of four upper-case hexadecimal digits. */
  lemma HeaderExactly(line: string, path: string, tag: string)
    ensures Header(line) == Some((path, tag)) <==>
              && line == "[" + path + "#" + tag + "]"
              && |path| > 0 && (forall c :: c in path ==> c != '#' && c != '\n' && c != '\r')
              && |tag| == 4 && (forall c :: c in tag ==> '0' <= c <= '9' || 'A' <= c <= 'F')
  {
    TagChars(tag);
    if Header(line) == Some((path, tag)) {
      var n := |line|;
      assert line == line[..1] + line[1..n - 6] + line[n - 6..n - 5] + line[n - 5..n - 1] + line[n - 1..];
      assert line[..1] == "[" && line[n - 6..n - 5] == "#" && line[n - 1..] == "]";
    } else if IsPath(path) && IsTag(tag) && line == HeaderLine(path, tag) {
      HeaderRoundTrip(path, tag);
    }
  }

  lemma TagChars(tag: string)
    ensures IsTag(tag) <==> |tag| == 4 && forall c :: c in tag ==> '0' <= c <= '9' || 'A' <= c <= 'F'
  {
    assert forall i :: 0 <= i < |tag| ==> tag[i] in tag;
  }

  // ---------------------------------------------------------------- registers

  /** A register name: letters, digits, `_` and `-`. */
  ghost predicate Wordly(s: string) {
    s != "" && forall c :: c in s ==> 'A' <= c <= 'Z' || 'a' <= c <= 'z' || '0' <= c <= '9' || c == '_' || c == '-'
  }

  lemma WordlyIs(s: string)
    ensures Wordly(s) <==> IsWord(s)
  {
    assert forall i :: 0 <= i < |s| ==> s[i] in s;
  }

  /** The text before a register may be anything but empty: what ends in ` @NAME` is split there. */
  lemma RegisterReads(value: string, register: string)
    requires value != "" && Wordly(register)
    ensures SplitRegister(value + " @" + register) == (value, register)
  {
    var s, k := value + " @" + register, |value|;
    WordlyIs(register);
    assert s[k] == ' ' && s[k + 1] == '@' && s[..k] == value && s[k + 2..] == register;
    assert forall i :: k + 2 <= i < |s| ==> s[i] == register[i - k - 2];
    LastSpaceAt(s, k, |s|);
  }

  /** Every other text stands for itself, without a register. */
  lemma RegisterExactly(s: string)
    ensures var (value, register) := SplitRegister(s);
            if register == "" then value == s
            else value != "" && Wordly(register) && s == value + " @" + register
  {
    var (value, register) := SplitRegister(s);
    if register != "" {
      var k := |value|;
      WordlyIs(register);
      assert s == s[..k] + s[k..k + 2] + s[k + 2..];
      assert s[k..k + 2] == " @";
    }
  }

  // ---------------------------------------------------------------- white space and moves

  /** White space around a locator does not count. */
  lemma LocatorTrimmed(before: string, value: string, after: string, allowGap: bool)
    requires AllSpaces(before) && AllSpaces(after) && value != "" && Tight(value)
    ensures ParseLocator(before + value + after, allowGap) == ParseLocator(value, allowGap)
  {
    TrimmedTo(before, value, after);
    TrimmedTo("", value, "");
    assert "" + value + "" == value;
  }

  lemma MoveLine(text: string, unquote: Unquote)
    ensures ParseHunk("MV " + text, unquote) ==
            match MoveDestination(TrimSpace(text), unquote) case Some(d) => Ok(Move(d)) case None => Err(BadDestination)
  {
    var line := "MV " + text;
    assert line[3..] == text && line[..3] == "MV " && line[0] == 'M' && "PUT "[0] == 'P' && "CUT "[0] == 'C' && "REM"[0] == 'R';
    assert !HasPrefix(line, "PUT ") && !HasPrefix(line, "CUT ") && line != "REM";
  }

  /** A destination after `MV ` is taken as it is, without the white space around it, unless it is quoted. */
  lemma PlainMoves(before: string, name: string, after: string, unquote: Unquote)
    requires AllSpaces(before) && AllSpaces(after) && name != "" && Tight(name) && name[0] != '"' && name[0] != '\''
    ensures ParseHunk("MV " + (before + name + after), unquote) == Ok(Move(name))
  {
    TrimmedTo(before, name, after);
    MoveLine(before + name + after, unquote);
  }

  /** One in single quotes is taken without them, white space and all; the closing quote must be there. */
  lemma QuotedMoves(before: string, name: string, after: string, unquote: Unquote)
    requires AllSpaces(before) && AllSpaces(after)
    ensures ParseHunk("MV " + (before + ("'" + name + "'") + after), unquote) == Ok(Move(name))
    ensures name == "" || (Tight("'" + name) && name[|name| - 1] != '\'') ==>
              ParseHunk("MV " + (before + ("'" + name) + after), unquote) == Err(BadDestination)
  {
    var quoted, open := "'" + name + "'", "'" + name;
    TrimmedTo(before, quoted, after);
    MoveLine(before + quoted + after, unquote);
    assert quoted[1..|quoted| - 1] == name;
    if name == "" || (Tight(open) && name[|name| - 1] != '\'') {
      TrimmedTo(before, open, after);
      MoveLine(before + open + after, unquote);
    }
  }

  /** One in double quotes is what the language's unquoting makes of it, or refused with it. */
  lemma UnquotedMoves(before: string, text: string, after: string, unquote: Unquote)
    requires AllSpaces(before) && AllSpaces(after) && Tight("\"" + text)
    ensures ParseHunk("MV " + (before + ("\"" + text) + after), unquote) ==
            match unquote("\"" + text) case Some(d) => Ok(Move(d)) case None => Err(BadDestination)
  {
    TrimmedTo(before, "\"" + text, after);
    MoveLine(before + ("\"" + text) + after, unquote);
  }

  /** A move to nothing is refused. */
  lemma EmptyMoveRefused(text: string, unquote: Unquote)
    requires AllSpaces(text)
    ensures ParseHunk("MV " + text, unquote) == Err(BadDestination)
  {
    SpacesVanish(text);
    MoveLine(text, unquote);
  }

  lemma {:induction false} SpacesVanish(s: string)
    requires AllSpaces(s)
    ensures TrimSpace(s) == ""
  {
    if s != "" { SpacesVanish(s[1..]); }
  }

  /** A line that begins like none of the hunks is none. */
  lemma OthersUnrecognized(line: string, unquote: Unquote)
    requires line == "" || (line[0] != 'P' && line[0] != 'C' && line[0] != 'M' && line != "REM")
    ensures ParseHunk(line, unquote) == Err(Unrecognized)
  {
    assert "PUT "[0] == 'P' && "CUT "[0] == 'C' && "MV "[0] == 'M';
  }
}
