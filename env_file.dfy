/** The `.env` parser of compare-db-connections.ts (`parseEnvFile`), on the file's text.

    The text is cut into lines at every '\n'; each line is trimmed; blank lines and lines
    whose trimmed form starts with '#' are skipped; the rest is cut at the first '=' into a
    key and a value; the value is trimmed and loses at most one quote character at each end;
    a later assignment of a key overrides an earlier one. */
module EnvFile {
  import opened Wrappers

  // ---------------------------------------------------------------------------------------
  // String primitives with JavaScript's meaning
  // ---------------------------------------------------------------------------------------

  /** The characters `String.prototype.trim` removes: ECMAScript WhiteSpace (tab, vertical
      tab, form feed, space, no-break space, the byte-order mark and the other space
      separators of category Zs) and LineTerminator (LF, CR, LS, PS). */
  predicate IsWhitespace(c: char) {
    var n := c as int;
    n == 0x09 || n == 0x0A || n == 0x0B || n == 0x0C || n == 0x0D || n == 0x20
    || n == 0xA0 || n == 0x1680 || (0x2000 <= n <= 0x200A) || n == 0x2028 || n == 0x2029
    || n == 0x202F || n == 0x205F || n == 0x3000 || n == 0xFEFF
  }

  /** Removes the leading whitespace: what remains is a suffix of `s` that does not start
      with whitespace, and everything removed was whitespace. */
  function TrimStart(s: string): (r: string)
    ensures |r| <= |s| && r == s[|s| - |r|..]
    ensures r == [] || !IsWhitespace(r[0])
    ensures forall i :: 0 <= i < |s| - |r| ==> IsWhitespace(s[i])
  {
    if s != [] && IsWhitespace(s[0]) then TrimStart(s[1..]) else s
  }

  /** Removes the trailing whitespace: what remains is a prefix of `s` that does not end
      with whitespace, and everything removed was whitespace. */
  function TrimEnd(s: string): (r: string)
    ensures |r| <= |s| && r == s[..|r|]
    ensures r == [] || !IsWhitespace(r[|r| - 1])
    ensures forall i :: |r| <= i < |s| ==> IsWhitespace(s[i])
  {
    if s != [] && IsWhitespace(s[|s| - 1]) then TrimEnd(s[..|s| - 1]) else s
  }

  /** `s.trim()`. */
  function Trim(s: string): string {
    TrimEnd(TrimStart(s))
  }

  /** Trimming is idempotent: a trimmed string has no whitespace at either end. */
  lemma TrimIdempotent(s: string)
    ensures Trim(Trim(s)) == Trim(s)
  {
    var t := Trim(s);
    assert TrimStart(t) == t;
  }

  /** `s[a..b]` is `s` with only whitespace cut from either end. */
  predicate WhitespaceOutside(s: string, a: nat, b: nat)
    requires a <= b <= |s|
  {
    (forall i :: 0 <= i < a ==> IsWhitespace(s[i])) && (forall i :: b <= i < |s| ==> IsWhitespace(s[i]))
  }

  /** The slice `Trim` keeps, by its bounds. */
  lemma TrimBounds(s: string) returns (a: nat, b: nat)
    ensures a <= b <= |s| && Trim(s) == s[a..b] && WhitespaceOutside(s, a, b)
  {
    var u := TrimStart(s);
    var r := TrimEnd(u);
    a := |s| - |u|;
    b := a + |r|;
    assert Trim(s) == s[a..b] by {
      assert s[a..][..b - a] == s[a..b];
    }
    forall i | b <= i < |s|
      ensures IsWhitespace(s[i])
    {
      assert s[i] == u[i - a];
    }
  }

  /** What `Trim` keeps: a contiguous slice `s[a..b]` of its input, with only whitespace
      outside it and no whitespace at either of its ends. */
  lemma TrimIsSlice(s: string)
    ensures exists a: nat, b: nat :: a <= b <= |s| && Trim(s) == s[a..b] && WhitespaceOutside(s, a, b)
    ensures Trim(s) == [] || (!IsWhitespace(Trim(s)[0]) && !IsWhitespace(Trim(s)[|Trim(s)| - 1]))
  {
    var a, b := TrimBounds(s);
    var u := TrimStart(s);
    var r := TrimEnd(u);
    assert r == [] || !IsWhitespace(r[0]) by {
      if r != [] { assert r[0] == u[0]; }
    }
  }

  /** `s.split(d)`: the pieces between the occurrences of `d`; never empty, since even the
      empty text splits into one empty piece. */
  function Split(s: string, d: char): (parts: seq<string>)
    ensures |parts| >= 1
    ensures forall i :: 0 <= i < |parts| ==> d !in parts[i]
    decreases |s|
  {
    if s == [] then [""]
    else
      var rest := Split(s[1..], d);
      if s[0] == d then [""] + rest else [[s[0]] + rest[0]] + rest[1..]
  }

  /** `parts.join(d)`. */
  function Join(parts: seq<string>, d: char): string
    decreases |parts|
  {
    if parts == [] then ""
    else if |parts| == 1 then parts[0]
    else parts[0] + [d] + Join(parts[1..], d)
  }

  /** Splitting and joining on the same character are inverse: nothing is lost or added. */
  lemma {:induction false} JoinSplit(s: string, d: char)
    ensures Join(Split(s, d), d) == s
    decreases |s|
  {
    if s != [] {
      JoinSplit(s[1..], d);
      var rest := Split(s[1..], d);
      if s[0] == d {
        assert Split(s, d) == [""] + rest;
        assert Join([""] + rest, d) == "" + [d] + Join(rest, d);
        assert s == [s[0]] + s[1..];
      } else {
        var parts := [[s[0]] + rest[0]] + rest[1..];
        assert Split(s, d) == parts;
        if |rest| == 1 {
          assert Join(parts, d) == [s[0]] + rest[0];
          assert Join(rest, d) == rest[0];
        } else {
          assert parts[1..] == rest[1..];
          assert Join(parts, d) == [s[0]] + rest[0] + [d] + Join(rest[1..], d);
          assert Join(rest, d) == rest[0] + [d] + Join(rest[1..], d);
        }
        assert s == [s[0]] + s[1..];
      }
    }
  }

  /** Without `d` in the text, splitting yields the text itself. */
  lemma {:induction false} SplitWithout(s: string, d: char)
    requires d !in s
    ensures Split(s, d) == [s]
    decreases |s|
  {
    if s != [] {
      assert d !in s[1..];
      SplitWithout(s[1..], d);
      assert s == [s[0]] + s[1..];
    }
  }

  /** Cutting at the first `d`: the first piece is the text before it, and the remaining
      pieces, joined with `d` again, are exactly the text after it. */
  lemma {:induction false} SplitAtFirst(s: string, d: char, p: nat)
    requires p < |s| && s[p] == d && d !in s[..p]
    ensures Split(s, d)[0] == s[..p]
    ensures Join(Split(s, d)[1..], d) == s[p + 1..]
    decreases p
  {
    var rest := Split(s[1..], d);
    if p == 0 {
      assert Split(s, d) == [""] + rest;
      assert Split(s, d)[1..] == rest;
      JoinSplit(s[1..], d);
    } else {
      assert s[0] != d;
      assert s[1..][..p - 1] == s[1..p];
      assert d !in s[1..][..p - 1];
      SplitAtFirst(s[1..], d, p - 1);
      assert Split(s, d) == [[s[0]] + rest[0]] + rest[1..];
      assert Split(s, d)[1..] == rest[1..];
      assert s[..p] == [s[0]] + s[1..][..p - 1];
      assert s[1..][p..] == s[p + 1..];
    }
  }

  // ---------------------------------------------------------------------------------------
  // One line
  // ---------------------------------------------------------------------------------------

  predicate IsQuote(c: char) {
    c == '\'' || c == '"'
  }

  /** `v.replace(/^['"]|['"]$/g, '')`: one leading quote character and one trailing quote
      character are removed, each independently of the other (the two need not match); a
      lone quote character is removed once. */
  function StripQuotes(v: string): string {
    var u := if v != [] && IsQuote(v[0]) then v[1..] else v;
    if u != [] && IsQuote(u[|u| - 1]) then u[..|u| - 1] else u
  }

  /** A value wrapped in any two quote characters gets back exactly what was inside, quotes
      inside included: only one character goes at each end. */
  lemma StripQuotesUnwraps(open: char, w: string, close: char)
    requires IsQuote(open) && IsQuote(close)
    ensures StripQuotes([open] + w + [close]) == w
  {
    var v := [open] + w + [close];
    assert v[1..] == w + [close];
    assert (w + [close])[..|w|] == w;
  }

  /** A value that neither starts nor ends with a quote character is kept as it is. */
  lemma StripQuotesKeepsUnquoted(w: string)
    requires w == [] || (!IsQuote(w[0]) && !IsQuote(w[|w| - 1]))
    ensures StripQuotes(w) == w
  {
  }

  /** A leading quote character with no quote character at the end is removed on its own,
      whatever follows it; a lone quote character leaves the empty string. */
  lemma StripQuotesLeadingOnly(q: char, w: string)
    requires IsQuote(q) && (w == [] || !IsQuote(w[|w| - 1]))
    ensures StripQuotes([q] + w) == w
  {
    assert ([q] + w)[1..] == w;
  }

  /** A trailing quote character with no quote character at the start is removed on its own,
      whatever precedes it. */
  lemma StripQuotesTrailingOnly(q: char, w: string)
    requires IsQuote(q) && (w == [] || !IsQuote(w[0]))
    ensures StripQuotes(w + [q]) == w
  {
    assert (w + [q])[..|w|] == w;
  }

  /** A `KEY=value` assignment found on a line. */
  datatype Assignment = Assignment(key: string, value: string)

  /** What one line of the file contributes, statement by statement as `parseEnvFile`'s loop
      body computes it; `None` when the line is skipped. */
  function Entry(line: string): (e: Option<Assignment>)
    ensures Trim(line) == [] || Trim(line)[0] == '#' ==> e == None
  {
    var trimmed := Trim(line);
    if trimmed == [] || trimmed[0] == '#' then None
    else
      var parts := Split(trimmed, '=');
      var key := parts[0];
      var value := StripQuotes(Trim(Join(parts[1..], '=')));
      if key != [] then Some(Assignment(Trim(key), value)) else None
  }

  /** A line with an '=' (whose first '=' is at `p` of the trimmed line) is dropped when the
      '=' comes first, and otherwise assigns the trimmed text before the first '=' the text
      after it, other '=' included, trimmed and with its outer quotes removed. */
  lemma EntryAtFirstEquals(line: string, p: nat)
    requires var t := Trim(line); t != [] && t[0] != '#' && p < |t| && t[p] == '=' && '=' !in t[..p]
    ensures var t := Trim(line);
      Entry(line) == if p == 0 then None
                     else Some(Assignment(Trim(t[..p]), StripQuotes(Trim(t[p + 1..]))))
  {
    SplitAtFirst(Trim(line), '=', p);
  }

  /** A non-blank, non-comment line without '=' assigns the whole trimmed line the empty
      value. */
  lemma EntryWithoutEquals(line: string)
    requires var t := Trim(line); t != [] && t[0] != '#' && '=' !in t
    ensures Entry(line) == Some(Assignment(Trim(line), ""))
  {
    var t := Trim(line);
    SplitWithout(t, '=');
    var parts := Split(t, '=');
    assert parts[0] == t && parts[1..] == [];
    assert Trim(Join(parts[1..], '=')) == "" by {
      assert Join(parts[1..], '=') == "";
      assert TrimStart("") == "" && TrimEnd("") == "";
    }
    assert StripQuotes("") == "";
    TrimIdempotent(line);
  }

  // ---------------------------------------------------------------------------------------
  // The whole file
  // ---------------------------------------------------------------------------------------

  /** The record after applying what one line contributes. */
  function Apply(config: map<string, string>, e: Option<Assignment>): map<string, string> {
    match e
    case None => config
    case Some(a) => config[a.key := a.value]
  }

  /** The record after what the lines contribute, in file order. */
  function Record(entries: seq<Option<Assignment>>): map<string, string>
    decreases |entries|
  {
    if entries == [] then map[]
    else Apply(Record(entries[..|entries| - 1]), entries[|entries| - 1])
  }

  /** What each line of the text contributes. */
  function Entries(lines: seq<string>): (es: seq<Option<Assignment>>)
    ensures |es| == |lines|
  {
    seq(|lines|, i requires 0 <= i < |lines| => Entry(lines[i]))
  }

  /** The configuration record after the given text. */
  function ParseEnv(content: string): map<string, string> {
    Record(Entries(Split(content, '\n')))
  }

  predicate Assigns(e: Option<Assignment>, key: string) {
    e.Some? && e.value.key == key
  }

  /** A key is in the record exactly when some line assigns it. */
  lemma {:induction false} RecordKeys(entries: seq<Option<Assignment>>, key: string)
    ensures key in Record(entries) <==> exists i :: 0 <= i < |entries| && Assigns(entries[i], key)
    decreases |entries|
  {
    if entries != [] {
      var init := entries[..|entries| - 1];
      RecordKeys(init, key);
      if key in Record(entries) && !Assigns(entries[|entries| - 1], key) {
        var i :| 0 <= i < |init| && Assigns(init[i], key);
        assert entries[i] == init[i];
      }
      if exists i :: 0 <= i < |entries| && Assigns(entries[i], key) {
        var i :| 0 <= i < |entries| && Assigns(entries[i], key);
        if i < |init| {
          assert init[i] == entries[i];
        }
      }
    }
  }

  /** The last assignment of a key wins: its value is the key's value in the record. */
  lemma {:induction false} LastAssignmentWins(entries: seq<Option<Assignment>>, i: nat, key: string, value: string)
    requires i < |entries| && entries[i] == Some(Assignment(key, value))
    requires forall j :: i < j < |entries| ==> !Assigns(entries[j], key)
    ensures key in Record(entries) && Record(entries)[key] == value
    decreases |entries|
  {
    var init := entries[..|entries| - 1];
    if i < |entries| - 1 {
      assert init[i] == entries[i];
      assert forall j :: i < j < |init| ==> init[j] == entries[j];
      LastAssignmentWins(init, i, key, value);
      assert !Assigns(entries[|entries| - 1], key);
    }
  }

  /** A skipped line (blank, comment, or cut at a leading '=') can be deleted from the file
      without changing the record. */
  lemma {:induction false} SkippedLineIsInert(entries: seq<Option<Assignment>>, i: nat)
    requires i < |entries| && entries[i] == None
    ensures Record(entries[..i] + entries[i + 1..]) == Record(entries)
    decreases |entries|
  {
    var init := entries[..|entries| - 1];
    var without := entries[..i] + entries[i + 1..];
    if i == |entries| - 1 {
      assert without == init;
    } else {
      assert init[..i] + init[i + 1..] == without[..|without| - 1];
      assert without[|without| - 1] == entries[|entries| - 1];
      assert init[i] == entries[i];
      SkippedLineIsInert(init, i);
    }
  }

  /** One more line: the record after `i + 1` lines is the record after `i` lines with
      line `i`'s contribution applied. */
  lemma RecordStep(entries: seq<Option<Assignment>>, i: nat)
    requires i < |entries|
    ensures Record(entries[..i + 1]) == Apply(Record(entries[..i]), entries[i])
  {
    assert entries[..i + 1][..i] == entries[..i];
  }

  // ---------------------------------------------------------------------------------------
  // parseEnvFile
  // ---------------------------------------------------------------------------------------

  /** `parseEnvFile`: `None` stands for a file that does not exist, which yields the empty
      record; otherwise each line of the file text updates the record in turn. */
  method ParseEnvFile(file: Option<string>) returns (config: map<string, string>)
    ensures file.None? ==> config == map[]
    ensures file.Some? ==> config == ParseEnv(file.value)
  {
    config := map[];
    if file.None? {
      return;
    }
    var lines := Split(file.value, '\n');
    var i := 0;
    while i < |lines|
      invariant 0 <= i <= |lines|
      invariant config == Record(Entries(lines)[..i])
    {
      RecordStep(Entries(lines), i);
      var trimmed := Trim(lines[i]);
      if trimmed != [] && trimmed[0] != '#' {
        var parts := Split(trimmed, '=');
        var key := parts[0];
        var value := StripQuotes(Trim(Join(parts[1..], '=')));
        if key != [] {
          config := config[Trim(key) := value];
        }
      }
      i := i + 1;
    }
    assert Entries(lines)[..|lines|] == Entries(lines);
  }
}
