/** The class-name file: `write_file_classnames` writes the names joined by commas;
    `read_file_classnames` reads the first line back, splits it at every comma and strips
    surrounding whitespace from each piece. Only the text transforms are modelled; the
    file holds the string that `WriteClassNames` returns. */
module ClassNames {

  /** The characters Python's str.strip() removes (those for which str.isspace() holds). */
  predicate IsSpace(c: char)
  {
    c == ' ' || ('\t' <= c <= '\r') || ('\U{1c}' <= c <= '\U{1f}') ||
    c == '\U{85}' || c == '\U{a0}' || c == '\U{1680}' || ('\U{2000}' <= c <= '\U{200a}') ||
    c == '\U{2028}' || c == '\U{2029}' || c == '\U{202f}' || c == '\U{205f}' || c == '\U{3000}'
  }

  /** Neither end of `s` is whitespace. */
  predicate IsStripped(s: string)
  {
    s == [] || (!IsSpace(s[0]) && !IsSpace(s[|s| - 1]))
  }

  predicate AllSpace(s: string)
  {
    forall i :: 0 <= i < |s| ==> IsSpace(s[i])
  }

  /** s.lstrip() */
  function TrimStart(s: string): (r: string)
    ensures |r| <= |s|
    ensures r == [] || !IsSpace(r[0])
  {
    if s != [] && IsSpace(s[0]) then TrimStart(s[1..]) else s
  }

  /** s.rstrip() */
  function TrimEnd(s: string): (r: string)
    ensures |r| <= |s|
    ensures r == [] || !IsSpace(r[|r| - 1])
  {
    if s != [] && IsSpace(s[|s| - 1]) then TrimEnd(s[..|s| - 1]) else s
  }

  /** s.strip(): `s` with its leading and trailing whitespace removed. */
  function Strip(s: string): (r: string)
    ensures IsStripped(r)
  {
    var t := TrimStart(s);
    TrimEndRemovesSpace(t);
    TrimEnd(t)
  }

  /** lstrip() removes a prefix made only of whitespace. */
  lemma {:induction false} TrimStartRemovesSpace(s: string)
    ensures var r := TrimStart(s);
      r == s[|s| - |r|..] && AllSpace(s[..|s| - |r|])
    decreases |s|
  {
    if s != [] && IsSpace(s[0]) {
      TrimStartRemovesSpace(s[1..]);
      var r := TrimStart(s);
      assert s[1..][|s| - 1 - |r|..] == s[|s| - |r|..];
      var gone := s[..|s| - |r|];
      forall i | 0 <= i < |gone| ensures IsSpace(gone[i]) {
        if i > 0 { assert gone[i] == s[1..][..|s| - 1 - |r|][i - 1]; }
      }
    }
  }

  /** rstrip() removes a suffix made only of whitespace. */
  lemma {:induction false} TrimEndRemovesSpace(s: string)
    ensures var r := TrimEnd(s);
      r == s[..|r|] && AllSpace(s[|r|..])
    decreases |s|
  {
    if s != [] && IsSpace(s[|s| - 1]) {
      TrimEndRemovesSpace(s[..|s| - 1]);
      var r := TrimEnd(s);
      assert s[..|s| - 1][..|r|] == s[..|r|];
      var gone := s[|r|..];
      forall i | 0 <= i < |gone| ensures IsSpace(gone[i]) {
        if i < |gone| - 1 { assert gone[i] == s[..|s| - 1][|r|..][i]; }
      }
    }
  }

  /** strip() keeps a slice of `s` and drops only whitespace around it. */
  lemma StripIsSlice(s: string)
    ensures exists i, j :: 0 <= i <= j <= |s| && Strip(s) == s[i..j] && AllSpace(s[..i]) && AllSpace(s[j..])
  {
    var t := TrimStart(s);
    var r := TrimEnd(t);
    TrimStartRemovesSpace(s);
    TrimEndRemovesSpace(t);
    var i := |s| - |t|;
    assert r == s[i..i + |r|];
    assert s[i + |r|..] == t[|r|..];
  }

  /** Stripping leaves a string alone exactly when neither of its ends is whitespace. */
  lemma StripFixedPoint(s: string)
    ensures Strip(s) == s <==> IsStripped(s)
  {
    if IsStripped(s) && s != [] {
      assert TrimStart(s) == s;
      assert TrimEnd(s) == s;
    }
  }

  /** ','.join(names); `WriteClassNames` is the member that models
      write_file_classnames and states what this text gives back. */
  function Join(names: seq<string>): string
  {
    if |names| == 0 then ""
    else if |names| == 1 then names[0]
    else names[0] + "," + Join(names[1..])
  }

  /** The position of the first `c` in `s`. */
  function IndexOf(s: string, c: char): (r: nat)
    requires c in s
    ensures r < |s| && s[r] == c && c !in s[..r]
  {
    if s[0] == c then 0 else 1 + IndexOf(s[1..], c)
  }

  /** s.split(','): the pieces between commas, at least one, none holding a comma. */
  function Split(s: string): (r: seq<string>)
    ensures |r| >= 1
    ensures forall k :: 0 <= k < |r| ==> ',' !in r[k]
    decreases |s|
  {
    if ',' !in s then [s]
    else
      var i := IndexOf(s, ',');
      [s[..i]] + Split(s[i + 1..])
  }

  /** Joining the pieces with commas gives back the split string. */
  lemma {:induction false} JoinSplit(s: string)
    ensures Join(Split(s)) == s
    decreases |s|
  {
    if ',' in s {
      var i := IndexOf(s, ',');
      var rest := Split(s[i + 1..]);
      JoinSplit(s[i + 1..]);
      assert ([s[..i]] + rest)[1..] == rest;
      assert s == s[..i] + "," + s[i + 1..];
    }
  }

  /** Splitting comma-joined names gives them back, when there is at least one and no
      name holds a comma. */
  lemma {:induction false} SplitJoin(names: seq<string>)
    requires |names| >= 1 && NoCommas(names)
    ensures Split(Join(names)) == names
    decreases |names|
  {
    if |names| > 1 {
      var s := Join(names);
      var n0, tail := names[0], Join(names[1..]);
      assert s == n0 + [','] + tail;
      assert s[|n0|] == ',' && s[..|n0|] == n0 && s[|n0| + 1..] == tail;
      SplitAt(s, |n0|);
      SplitJoin(names[1..]);
      assert names == [n0] + names[1..];
    }
  }

  /** A string whose first comma is at `i` splits into `s[..i]` and the pieces after it. */
  lemma SplitAt(s: string, i: nat)
    requires i < |s| && s[i] == ',' && ',' !in s[..i]
    ensures Split(s) == [s[..i]] + Split(s[i + 1..])
  {
    IndexOfFirst(s, ',', i);
  }

  /** A position holding `c` with no `c` before it is the first one. */
  lemma {:induction false} IndexOfFirst(s: string, c: char, i: nat)
    requires i < |s| && s[i] == c && c !in s[..i]
    ensures IndexOf(s, c) == i
    decreases i
  {
    if i > 0 {
      assert s[0] != c by { assert s[0] == s[..i][0]; }
      assert s[1..][..i - 1] == s[..i][1..];
      IndexOfFirst(s[1..], c, i - 1);
    }
  }

  /** Reading a file opened in text mode turns "\r\n" and a lone "\r" into "\n". */
  function UniversalNewlines(raw: string): (r: string)
    ensures '\r' !in r
    ensures '\r' !in raw ==> r == raw
  {
    if raw == [] then []
    else if raw[0] == '\r' then
      if |raw| > 1 && raw[1] == '\n' then "\n" + UniversalNewlines(raw[2..])
      else "\n" + UniversalNewlines(raw[1..])
    else [raw[0]] + UniversalNewlines(raw[1..])
  }

  /** f.readline(): the text up to and including the first newline, or all of it. */
  function FirstLine(text: string): (r: string)
    ensures r <= text
    ensures '\n' in text ==> |r| >= 1 && r[|r| - 1] == '\n' && '\n' !in r[..|r| - 1]
    ensures '\n' !in text ==> r == text
  {
    if '\n' in text then text[..IndexOf(text, '\n') + 1] else text
  }

  /** write_file_classnames: the text written to the file. No names give an empty
      text; otherwise splitting the text at its commas gives the names back, as long as
      none of them holds a comma. */
  function WriteClassNames(classNames: seq<string>): (r: string)
    ensures |classNames| == 0 ==> r == ""
    ensures |classNames| >= 1 && NoCommas(classNames) ==> Split(r) == classNames
  {
    var text := Join(classNames);
    if |classNames| >= 1 && NoCommas(classNames) then SplitJoin(classNames); text else text
  }

  /** No name holds a comma. */
  predicate NoCommas(names: seq<string>)
  {
    forall k :: 0 <= k < |names| ==> ',' !in names[k]
  }

  /** read_file_classnames: the class names read back from the file's text. There is
      always at least one, and none has whitespace at either end or holds a comma. */
  function ReadClassNames(fileText: string): (r: seq<string>)
    ensures |r| >= 1
    ensures forall k :: 0 <= k < |r| ==> IsStripped(r[k]) && ',' !in r[k]
  {
    var pieces := Split(FirstLine(UniversalNewlines(fileText)));
    var r := StripAll(pieces);
    assert forall k :: 0 <= k < |r| ==> ',' !in r[k] by {
      forall k | 0 <= k < |r| ensures ',' !in r[k] {
        StripIsSlice(pieces[k]);
        assert forall c :: c in r[k] ==> c in pieces[k];
      }
    }
    r
  }

  /** [name.strip() for name in pieces] */
  function StripAll(pieces: seq<string>): (r: seq<string>)
    ensures |r| == |pieces|
    ensures forall k :: 0 <= k < |r| ==> r[k] == Strip(pieces[k]) && IsStripped(r[k])
  {
    seq(|pieces|, k requires 0 <= k < |pieces| => Strip(pieces[k]))
  }

  /** A name that survives the file unchanged. */
  predicate IsSafeName(name: string)
  {
    ',' !in name && '\n' !in name && '\r' !in name && IsStripped(name)
  }

  /** Reading back what was written gives the same names, when there is at least one
      and every name is free of commas and line breaks and has no whitespace at either
      end. */
  lemma RoundTrip(classNames: seq<string>)
    requires |classNames| >= 1
    requires forall k :: 0 <= k < |classNames| ==> IsSafeName(classNames[k])
    ensures ReadClassNames(WriteClassNames(classNames)) == classNames
  {
    var text := Join(classNames);
    JoinHasNo(classNames, '\r');
    JoinHasNo(classNames, '\n');
    SplitJoin(classNames);
    var r := ReadClassNames(text);
    forall k | 0 <= k < |classNames| ensures r[k] == classNames[k] {
      StripFixedPoint(classNames[k]);
    }
  }

  /** Joining names that lack a character other than ',' gives a text that lacks it. */
  lemma {:induction false} JoinHasNo(names: seq<string>, c: char)
    requires c != ','
    requires forall k :: 0 <= k < |names| ==> c !in names[k]
    ensures c !in Join(names)
    decreases |names|
  {
    if |names| > 1 {
      JoinHasNo(names[1..], c);
    }
  }

  /** An empty list is written as an empty file, which reads back as one empty name. */
  lemma EmptyListReadsBackAsOneEmptyName()
    ensures ReadClassNames(WriteClassNames([])) == [""]
  {
    assert Split("") == [""];
  }

  /** Text without a carriage return passes the newline translation unchanged. */
  lemma {:induction false} UniversalNewlinesAppend(a: string, b: string)
    requires '\r' !in a
    ensures UniversalNewlines(a + b) == a + UniversalNewlines(b)
    decreases |a|
  {
    if a != [] {
      assert (a + b)[0] == a[0] && (a + b)[1..] == a[1..] + b;
      UniversalNewlinesAppend(a[1..], b);
      assert a == [a[0]] + a[1..];
    } else {
      assert a + b == b;
    }
  }

  /** Splitting text that ends in a comma-free tail: the tail joins the last piece. */
  lemma {:induction false} SplitAppendTail(s: string, t: string)
    requires ',' !in t
    ensures var p := Split(s);
      Split(s + t) == p[..|p| - 1] + [p[|p| - 1] + t]
    decreases |s|
  {
    if ',' in s {
      var i := IndexOf(s, ',');
      assert (s + t)[i] == ',' && (s + t)[..i] == s[..i];
      SplitAt(s + t, i);
      assert (s + t)[i + 1..] == s[i + 1..] + t;
      SplitAppendTail(s[i + 1..], t);
    } else {
      assert ',' !in s + t by {
        forall k | 0 <= k < |s + t| ensures (s + t)[k] != ',' {
          if k >= |s| { assert (s + t)[k] == t[k - |s|]; } else { assert (s + t)[k] == s[k]; }
        }
      }
    }
  }

  /** lstrip() of a string followed by one more whitespace character. */
  lemma {:induction false} TrimStartAppendSpace(p: string, c: char)
    requires IsSpace(c)
    ensures TrimStart(p + [c]) == if TrimStart(p) == [] then [] else TrimStart(p) + [c]
    decreases |p|
  {
    if p == [] {
      assert [c][1..] == [];
    } else {
      assert (p + [c])[0] == p[0] && (p + [c])[1..] == p[1..] + [c];
      if IsSpace(p[0]) {
        TrimStartAppendSpace(p[1..], c);
      }
    }
  }

  /** Whitespace added at the end makes no difference to strip(). */
  lemma StripAppendSpace(p: string, c: char)
    requires IsSpace(c)
    ensures Strip(p + [c]) == Strip(p)
  {
    TrimStartAppendSpace(p, c);
    var q := TrimStart(p);
    if q != [] {
      assert (q + [c])[..|q|] == q;
    }
  }

  /** The line read from a text whose first line is `line`. */
  lemma FirstLineOf(line: string, rest: string)
    requires '\n' !in line && '\r' !in line
    ensures FirstLine(UniversalNewlines(line + "\n" + rest)) == line + "\n"
    ensures FirstLine(UniversalNewlines(line)) == line
  {
    assert line + "\n" + rest == line + ("\n" + rest);
    UniversalNewlinesAppend(line, "\n" + rest);
    assert UniversalNewlines("\n" + rest) == "\n" + UniversalNewlines(rest);
    var u := line + ("\n" + UniversalNewlines(rest));
    assert u[|line|] == '\n' && u[..|line|] == line;
    IndexOfFirst(u, '\n', |line|);
    assert u[..|line| + 1] == line + "\n";
  }

  /** A line break after the last piece is stripped away with the rest of its
      whitespace. */
  lemma StripAllNewlineTail(p: seq<string>, p': seq<string>)
    requires |p| >= 1 && p' == p[..|p| - 1] + [p[|p| - 1] + "\n"]
    ensures StripAll(p') == StripAll(p)
  {
    var last := |p| - 1;
    StripAppendSpace(p[last], '\n');
    var r, r' := StripAll(p'), StripAll(p);
    forall k | 0 <= k < |r| ensures r[k] == r'[k] {
      if k < last {
        assert p'[k] == p[k];
      } else {
        assert p'[k] == p[last] + ['\n'];
      }
    }
  }

  /** Only the first line counts: what follows the first line break is never read. */
  lemma ReadsFirstLineOnly(line: string, rest: string)
    requires '\n' !in line && '\r' !in line
    ensures ReadClassNames(line + "\n" + rest) == ReadClassNames(line)
  {
    FirstLineOf(line, rest);
    var p, p' := Split(line), Split(line + "\n");
    assert p' == p[..|p| - 1] + [p[|p| - 1] + "\n"] by {
      SplitAppendTail(line, "\n");
    }
    assert StripAll(p') == StripAll(p) by {
      StripAllNewlineTail(p, p');
    }
  }
}
