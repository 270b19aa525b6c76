/**
 * The two string utilities of the application (app/src/utils.cpp):
 * splitString, which cuts a list such as "car, person" into trimmed,
 * non-empty tokens, and generateOutputPath, which names the processed video
 * after the input file.
 */
module Utils {

  // ----------------------------------------------------------------------
  // splitString
  // ----------------------------------------------------------------------

  /** The characters the tokens are trimmed of: space, tab, newline, carriage return. */
  const Whitespace: set<char> := {' ', '\t', '\n', '\r'}

  /** The position of the first c in s, or |s| when s has none (IndexOfFacts). */
  function IndexOf(s: string, c: char): (i: nat)
    ensures i <= |s|
  {
    if |s| == 0 then 0 else if s[0] == c then 0 else 1 + IndexOf(s[1..], c)
  }

  /** IndexOf stops at a c, and there is none before it. */
  lemma {:induction false} IndexOfFacts(s: string, c: char)
    ensures IndexOf(s, c) < |s| ==> s[IndexOf(s, c)] == c
    ensures c !in s[..IndexOf(s, c)]
    decreases |s|
  {
    if |s| > 0 && s[0] != c {
      var j := IndexOf(s[1..], c);
      IndexOfFacts(s[1..], c);
      assert s[..1 + j] == [s[0]] + s[1..][..j];
    }
  }

  /** A position holding c (or the end) with no c before it is what IndexOf finds. */
  lemma {:induction false} IndexOfAt(s: string, c: char, m: nat)
    requires m <= |s| && (m < |s| ==> s[m] == c)
    requires forall k :: 0 <= k < m ==> s[k] != c
    ensures IndexOf(s, c) == m
    decreases |s|
  {
    if |s| > 0 && s[0] != c {
      IndexOfAt(s[1..], c, m - 1);
    }
  }

  /**
   * The strings repeated calls of std::getline(stream, token, delimiter)
   * read from s: each runs up to the next delimiter, which is consumed; a
   * call at the end of the input fails, so an empty input gives no field and
   * a delimiter at the very end opens no further field.
   */
  function Fields(s: string, delimiter: char): seq<string>
    decreases |s|
  {
    if |s| == 0 then []
    else
      var i := IndexOf(s, delimiter);
      if i < |s| then [s[..i]] + Fields(s[i + 1..], delimiter) else [s]
  }

  /**
   * find_first_not_of(" \t\n\r"): the position of the first character that is
   * not whitespace, or |t| when there is none (erase(0, npos) erases all of t,
   * as erase(0, |t|) does).
   */
  function FindFirstNotOf(t: string): (i: nat)
    ensures i <= |t|
  {
    if |t| == 0 then 0 else if t[0] !in Whitespace then 0 else 1 + FindFirstNotOf(t[1..])
  }

  /** Only whitespace comes before FindFirstNotOf, and it is not whitespace itself. */
  lemma {:induction false} FindFirstNotOfFacts(t: string)
    ensures FindFirstNotOf(t) < |t| ==> t[FindFirstNotOf(t)] !in Whitespace
    ensures forall k :: 0 <= k < FindFirstNotOf(t) ==> t[k] in Whitespace
    decreases |t|
  {
    if |t| > 0 && t[0] in Whitespace {
      FindFirstNotOfFacts(t[1..]);
      forall k | 1 <= k < FindFirstNotOf(t) ensures t[k] in Whitespace {
        assert t[k] == t[1..][k - 1];
      }
    }
  }

  /**
   * find_last_not_of(" \t\n\r"): the position of the last character that is
   * not whitespace, or -1 standing for npos, since npos + 1 wraps around to 0
   * in size_t.
   */
  function FindLastNotOf(t: string): (i: int)
    ensures -1 <= i < |t|
  {
    if |t| == 0 then -1
    else if t[|t| - 1] !in Whitespace then |t| - 1
    else FindLastNotOf(t[..|t| - 1])
  }

  /** Only whitespace comes after FindLastNotOf, and it is not whitespace itself. */
  lemma {:induction false} FindLastNotOfFacts(t: string)
    ensures 0 <= FindLastNotOf(t) ==> t[FindLastNotOf(t)] !in Whitespace
    ensures forall k :: FindLastNotOf(t) < k < |t| ==> t[k] in Whitespace
    decreases |t|
  {
    if |t| > 0 && t[|t| - 1] in Whitespace {
      FindLastNotOfFacts(t[..|t| - 1]);
    }
  }

  /** The two erase calls: leading whitespace first, then trailing whitespace. */
  function Trim(t: string): string
  {
    var u := t[FindFirstNotOf(t)..];
    u[..FindLastNotOf(u) + 1]
  }

  /** The trimmed fields, empty ones dropped, in field order. */
  function Tokens(fields: seq<string>): seq<string>
  {
    if |fields| == 0 then []
    else (if Trim(fields[0]) == [] then [] else [Trim(fields[0])]) + Tokens(fields[1..])
  }

  /** What splitString returns. */
  function Split(s: string, delimiter: char): seq<string>
  {
    Tokens(Fields(s, delimiter))
  }

  lemma TokensCons(f: string, fields: seq<string>)
    ensures Tokens([f] + fields) == (if Trim(f) == [] then [] else [Trim(f)]) + Tokens(fields)
  {
    assert ([f] + fields)[0] == f && ([f] + fields)[1..] == fields;
  }

  /** getline reads the text up to the first delimiter as the first field. */
  lemma FieldsDelimited(rest: string, delimiter: char, len: nat)
    requires len == IndexOf(rest, delimiter) && len < |rest|
    ensures Fields(rest, delimiter) == [rest[..len]] + Fields(rest[len + 1..], delimiter)
  {
  }

  /** A field ended by a delimiter: its trim, then the rest split on its own. */
  lemma SplitFrontDelimited(rest: string, delimiter: char, len: nat)
    requires len == IndexOf(rest, delimiter) && len < |rest|
    ensures var t := Trim(rest[..len]);
      Split(rest, delimiter) == (if t == [] then [] else [t]) + Split(rest[len + 1..], delimiter)
  {
    var field, more := rest[..len], Fields(rest[len + 1..], delimiter);
    var t := Trim(field);
    calc {
      Split(rest, delimiter);
      { FieldsDelimited(rest, delimiter, len); }
      Tokens([field] + more);
      { TokensCons(field, more); }
      (if t == [] then [] else [t]) + Tokens(more);
    }
  }

  /** A last field without a delimiter: just its trim. */
  lemma SplitFrontLast(rest: string, delimiter: char)
    requires rest != [] && IndexOf(rest, delimiter) == |rest|
    ensures var t := Trim(rest); Split(rest, delimiter) == if t == [] then [] else [t]
  {
    assert Fields(rest, delimiter) == [rest] + [];
    TokensCons(rest, []);
  }

  /**
   * One getline step: the first field of a non-empty rest contributes its
   * trim, unless that is empty, and the input after its delimiter (if any)
   * is split on its own.
   */
  lemma SplitFront(rest: string, delimiter: char, len: nat)
    requires rest != [] && len == IndexOf(rest, delimiter)
    ensures var t := Trim(rest[..len]);
      Split(rest, delimiter)
        == (if t == [] then [] else [t]) + (if len < |rest| then Split(rest[len + 1..], delimiter) else [])
  {
    if len < |rest| {
      SplitFrontDelimited(rest, delimiter, len);
    } else {
      SplitFrontLast(rest, delimiter);
      assert rest[..len] == rest;
      var t := Trim(rest);
      assert (if t == [] then [] else [t]) + [] == (if t == [] then [] else [t]);
    }
  }

  method SplitString(s: string, delimiter: char) returns (tokens: seq<string>)
    ensures tokens == Split(s, delimiter)
  {
    tokens := [];
    var pos := 0;
    assert s[0..] == s;
    while pos < |s|
      invariant 0 <= pos <= |s|
      invariant Split(s, delimiter) == tokens + Split(s[pos..], delimiter)
    {
      // std::getline: read up to the next delimiter and consume it
      var rest := s[pos..];
      var len := IndexOf(rest, delimiter);
      var token := rest[..len];
      SplitFront(rest, delimiter, len);
      ghost var after := if len < |rest| then Split(rest[len + 1..], delimiter) else [];
      if len < |rest| {
        assert rest[len + 1..] == s[pos + len + 1..];
        pos := pos + len + 1;
      } else {
        pos := |s|;
      }
      assert Split(s[pos..], delimiter) == after;
      ghost var field := token;
      token := token[FindFirstNotOf(token)..];
      token := token[..FindLastNotOf(token) + 1];
      assert token == Trim(field);
      assert Split(rest, delimiter) == (if token == [] then [] else [token]) + after;
      ghost var before := tokens;
      if token != [] {
        tokens := tokens + [token];
        assert before + ([token] + after) == tokens + after;
      } else {
        assert [] + after == after;
      }
    }
  }

  /**
   * Trimming removes a whitespace-only prefix and suffix and keeps the rest,
   * interior whitespace included, as it is; what remains is empty exactly
   * when the string is all whitespace, and otherwise neither starts nor ends
   * with whitespace.
   */
  lemma TrimFacts(f: string)
    ensures var t := Trim(f);
      && (t == [] <==> forall k :: 0 <= k < |f| ==> f[k] in Whitespace)
      && (t != [] ==> t[0] !in Whitespace && t[|t| - 1] !in Whitespace)
      && exists i, j :: 0 <= i <= j <= |f| && t == f[i..j]
           && (forall k :: 0 <= k < i ==> f[k] in Whitespace)
           && (forall k :: j <= k < |f| ==> f[k] in Whitespace)
  {
    var i := FindFirstNotOf(f);
    var u := f[i..];
    var l := FindLastNotOf(u);
    var j := i + l + 1;
    FindFirstNotOfFacts(f);
    FindLastNotOfFacts(u);
    assert Trim(f) == f[i..j];
    forall k | j <= k < |f| ensures f[k] in Whitespace {
      assert f[k] == u[k - i];
    }
    assert i < |f| ==> u[0] == f[i];
    if Trim(f) == [] {
      assert l == -1;
      assert i == |f|;
    }
  }

  /** A string that neither starts nor ends with whitespace is its own trim. */
  lemma TrimOfTrimmed(t: string)
    requires t != [] && t[0] !in Whitespace && t[|t| - 1] !in Whitespace
    ensures Trim(t) == t
  {
    assert FindFirstNotOf(t) == 0;
    assert t[0..] == t;
  }

  /** Every token is the trim of one of the fields, and none is empty. */
  lemma {:induction false} TokensFromFields(fields: seq<string>)
    ensures |Tokens(fields)| <= |fields|
    ensures forall t :: t in Tokens(fields) ==> t != [] && exists f :: f in fields && t == Trim(f)
  {
    if fields != [] {
      TokensFromFields(fields[1..]);
      assert forall f :: f in fields[1..] ==> f in fields;
    }
  }

  /** No field contains the delimiter. */
  lemma {:induction false} FieldsExcludeDelimiter(s: string, delimiter: char)
    ensures forall f :: f in Fields(s, delimiter) ==> delimiter !in f
    decreases |s|
  {
    if s != [] {
      var i := IndexOf(s, delimiter);
      IndexOfFacts(s, delimiter);
      if i < |s| {
        FieldsExcludeDelimiter(s[i + 1..], delimiter);
      }
    }
  }

  /** The number of times c occurs in s. */
  function Occurrences(s: string, c: char): nat
  {
    if |s| == 0 then 0 else (if s[0] == c then 1 else 0) + Occurrences(s[1..], c)
  }

  lemma {:induction false} OccurrencesConcat(a: string, b: string, c: char)
    ensures Occurrences(a + b, c) == Occurrences(a, c) + Occurrences(b, c)
  {
    if a == [] {
      assert a + b == b;
    } else {
      assert (a + b)[1..] == a[1..] + b;
      OccurrencesConcat(a[1..], b, c);
    }
  }

  /** There is at most one field more than there are delimiters. */
  lemma {:induction false} FieldsCount(s: string, delimiter: char)
    ensures |Fields(s, delimiter)| <= Occurrences(s, delimiter) + 1
    decreases |s|
  {
    if s != [] {
      var i := IndexOf(s, delimiter);
      IndexOfFacts(s, delimiter);
      if i < |s| {
        assert s == s[..i] + ([s[i]] + s[i + 1..]);
        OccurrencesConcat(s[..i], [s[i]] + s[i + 1..], delimiter);
        OccurrencesConcat([s[i]], s[i + 1..], delimiter);
        assert Occurrences([s[i]], delimiter) == 1;
        FieldsCount(s[i + 1..], delimiter);
      }
    }
  }

  /** A field followed by the delimiter comes first, and the rest is split on its own. */
  lemma FieldsCons(a: string, b: string, delimiter: char)
    requires delimiter !in a
    ensures Fields(a + [delimiter] + b, delimiter) == [a] + Fields(b, delimiter)
  {
    var s := a + [delimiter] + b;
    var i := IndexOf(s, delimiter);
    assert s[|a|] == delimiter;
    assert forall k :: 0 <= k < |a| ==> s[k] == a[k];
    IndexOfAt(s, delimiter, |a|);
    assert s[..i] == a && s[i + 1..] == b;
  }

  /** Every token is non-empty. */
  lemma SplitTokensNonEmpty(s: string, delimiter: char)
    ensures forall t :: t in Split(s, delimiter) ==> t != []
  {
    TokensFromFields(Fields(s, delimiter));
  }

  /** The non-empty trim of a delimiter-free field is a token. */
  lemma TrimmedFieldIsToken(f: string, delimiter: char)
    requires delimiter !in f && Trim(f) != []
    ensures IsToken(Trim(f), delimiter)
  {
    TrimFacts(f);
    var i, j :| 0 <= i <= j <= |f| && Trim(f) == f[i..j];
    assert forall c :: c in f[i..j] ==> c in f;
  }

  /**
   * No token contains the delimiter, none starts or ends with whitespace,
   * and each is the trim of one delimiter-separated field.
   */
  lemma SplitTokensShape(s: string, delimiter: char)
    ensures forall t :: t in Split(s, delimiter) ==>
      && t != []
      && delimiter !in t
      && t[0] !in Whitespace && t[|t| - 1] !in Whitespace
      && exists f :: f in Fields(s, delimiter) && t == Trim(f)
  {
    var fields := Fields(s, delimiter);
    TokensFromFields(fields);
    FieldsExcludeDelimiter(s, delimiter);
    forall t | t in Split(s, delimiter) ensures IsToken(t, delimiter) {
      var f :| f in fields && t == Trim(f);
      TrimmedFieldIsToken(f, delimiter);
    }
  }

  /** There are no more tokens than fields, and no more fields than delimiters plus one. */
  lemma SplitCount(s: string, delimiter: char)
    ensures |Split(s, delimiter)| <= |Fields(s, delimiter)| <= Occurrences(s, delimiter) + 1
  {
    TokensFromFields(Fields(s, delimiter));
    FieldsCount(s, delimiter);
  }

  /** The empty string splits into no tokens. */
  lemma SplitEmpty(delimiter: char)
    ensures Split("", delimiter) == []
  {
  }

  /**
   * Tokens come out in field order: the first field contributes its trim,
   * unless that is empty, before anything from the rest of the input.
   */
  lemma SplitCons(a: string, b: string, delimiter: char)
    requires delimiter !in a
    ensures Split(a + [delimiter] + b, delimiter)
         == (if Trim(a) == [] then [] else [Trim(a)]) + Split(b, delimiter)
  {
    FieldsCons(a, b, delimiter);
    TokensCons(a, Fields(b, delimiter));
  }

  /** Tokens joined with the delimiter between them. */
  function Join(tokens: seq<string>, delimiter: char): string
  {
    if |tokens| == 0 then []
    else if |tokens| == 1 then tokens[0]
    else tokens[0] + [delimiter] + Join(tokens[1..], delimiter)
  }

  /** A string splitString can return as a token. */
  predicate IsToken(t: string, delimiter: char)
  {
    t != [] && delimiter !in t && t[0] !in Whitespace && t[|t| - 1] !in Whitespace
  }

  /** Splitting tokens joined with the delimiter gives them back. */
  lemma {:induction false} SplitJoin(tokens: seq<string>, delimiter: char)
    requires forall t :: t in tokens ==> IsToken(t, delimiter)
    ensures Split(Join(tokens, delimiter), delimiter) == tokens
  {
    if tokens == [] {
    } else if |tokens| == 1 {
      var t := tokens[0];
      assert IsToken(t, delimiter);
      assert forall k :: 0 <= k < |t| ==> t[k] != delimiter;
      IndexOfAt(t, delimiter, |t|);
      TrimOfTrimmed(t);
      assert Fields(t, delimiter) == [t];
      TokensCons(t, []);
      assert [t] + [] == [t];
    } else {
      var t := tokens[0];
      assert IsToken(t, delimiter);
      assert forall u :: u in tokens[1..] ==> u in tokens;
      SplitJoin(tokens[1..], delimiter);
      TrimOfTrimmed(t);
      SplitCons(t, Join(tokens[1..], delimiter), delimiter);
      assert tokens == [t] + tokens[1..];
    }
  }

  // ----------------------------------------------------------------------
  // generateOutputPath
  // ----------------------------------------------------------------------

  /** The position of the last c in s (rfind), or -1 when s has none. */
  function LastIndexOf(s: string, c: char): (i: int)
    ensures -1 <= i < |s|
    ensures 0 <= i ==> s[i] == c
    ensures forall k :: i < k < |s| ==> s[k] != c
  {
    if |s| == 0 then -1
    else if s[|s| - 1] == c then |s| - 1
    else LastIndexOf(s[..|s| - 1], c)
  }

  /** The last c is where the spec says it is. */
  lemma LastIndexOfAt(s: string, c: char, m: int)
    requires 0 <= m < |s| && s[m] == c
    requires forall k :: m < k < |s| ==> s[k] != c
    ensures LastIndexOf(s, c) == m
  {
  }

  /** path::filename() in the POSIX generic format: what follows the last '/'. */
  function FileName(path: string): (f: string)
    ensures '/' !in f
    ensures |f| <= |path| && f == path[|path| - |f|..]
    ensures |f| < |path| ==> path[|path| - |f| - 1] == '/'
  {
    path[LastIndexOf(path, '/') + 1..]
  }

  /**
   * Where path::extension() starts within a file name: at the last period,
   * unless the name is "." or "..", has no period, or has only a leading one;
   * then |f| (no extension).
   */
  function ExtensionStart(f: string): (i: nat)
    ensures i <= |f|
  {
    if f == "." || f == ".." then |f|
    else
      var j := LastIndexOf(f, '.');
      if j <= 0 then |f| else j
  }

  /** path::stem() of a file name. */
  function Stem(f: string): string { f[..ExtensionStart(f)] }

  /** path::extension() of a file name, the period included. */
  function Extension(f: string): string { f[ExtensionStart(f)..] }

  /**
   * A file name is its stem followed by its extension.  An extension is a
   * period followed by no other period, after a non-empty stem; there is none
   * exactly when the name is ".." or has no period past its first character.
   */
  lemma StemExtension(f: string)
    ensures Stem(f) + Extension(f) == f
    ensures Extension(f) != [] ==>
      Extension(f)[0] == '.' && '.' !in Extension(f)[1..] && Stem(f) != []
    ensures Extension(f) == [] <==> f == ".." || forall k :: 0 < k < |f| ==> f[k] != '.'
  {
    assert f[..ExtensionStart(f)] + f[ExtensionStart(f)..] == f;
    if f == ".." {
      assert Extension(f) == [];
    } else if f == "." {
      assert Extension(f) == [];
    } else {
      var j := LastIndexOf(f, '.');
      if j > 0 {
        assert Extension(f) == f[j..];
        assert f[j..][1..] == f[j + 1..];
      }
    }
  }

  /** generateOutputPath: "<stem>_processed<extension>", or a fixed name without an extension. */
  function GenerateOutputPath(inputPath: string): string
  {
    var f := FileName(inputPath);
    if Extension(f) == [] then "output_processed.mp4" else Stem(f) + "_processed" + Extension(f)
  }

  const Suffix: string := "_processed"

  /** sub occurs in s starting at position i. */
  predicate InfixAt(s: string, sub: string, i: int)
  {
    0 <= i <= |s| - |sub| && s[i..i + |sub|] == sub
  }

  /** s contains sub somewhere. */
  ghost predicate ContainsInfix(s: string, sub: string)
  {
    exists i :: InfixAt(s, sub, i)
  }

  /**
   * A name built as stem + "_processed" + extension, from a stem and an
   * extension without '/', is a bare file name that contains "_processed",
   * and decomposing it again gives back that extension.
   */
  lemma ProcessedName(stem: string, ext: string)
    requires '/' !in stem && '/' !in ext
    requires ext != [] && ext[0] == '.' && '.' !in ext[1..]
    ensures var r := stem + Suffix + ext;
      && ContainsInfix(r, Suffix) && '/' !in r && FileName(r) == r
      && Extension(r) == ext && Stem(r) == stem + Suffix
  {
    var r := stem + Suffix + ext;
    var m := |stem| + |Suffix|;
    assert r[|stem|..m] == Suffix;
    assert InfixAt(r, Suffix, |stem|);
    assert r[m] == '.';
    forall k | m < k < |r| ensures r[k] != '.' {
      assert r[k] == ext[1..][k - m - 1];
    }
    LastIndexOfAt(r, '.', m);
    assert r != "." && r != "..";
    assert r[m..] == ext && r[..m] == stem + Suffix;
    forall k | 0 <= k < |r| ensures r[k] != '/' {
      if k < |stem| { assert r[k] == stem[k]; }
      else if k < m { assert r[k] == Suffix[k - |stem|]; }
      else { assert r[k] == ext[k - m]; }
    }
    assert LastIndexOf(r, '/') == -1;
    assert r[0..] == r;
  }

  /** The fixed name is a bare file name containing "_processed". */
  lemma FixedNameFacts()
    ensures var r := "output_processed.mp4";
      ContainsInfix(r, Suffix) && '/' !in r && FileName(r) == r
  {
    assert ".mp4"[1..] == "mp4";
    ProcessedName("output", ".mp4");
    assert "output" + Suffix + ".mp4" == "output_processed.mp4";
  }

  /** A file name with an extension, rebuilt with "_processed" before it. */
  lemma ProcessedFileName(f: string)
    requires '/' !in f && Extension(f) != []
    ensures var r := Stem(f) + Suffix + Extension(f);
      && ContainsInfix(r, Suffix) && '/' !in r && FileName(r) == r
      && Extension(r) == Extension(f) && Stem(r) == Stem(f) + Suffix
  {
    StemExtension(f);
    assert forall c :: c in Stem(f) ==> c in f;
    assert forall c :: c in Extension(f) ==> c in f;
    ProcessedName(Stem(f), Extension(f));
  }

  /**
   * The output is a bare file name, never empty and always containing
   * "_processed".  Without an extension on the input it is
   * "output_processed.mp4"; otherwise it keeps the input's extension as its
   * own, after the input's stem and "_processed".
   */
  lemma OutputPathFacts(inputPath: string)
    ensures var r := GenerateOutputPath(inputPath);
      && r != []
      && ContainsInfix(r, Suffix)
      && '/' !in r
      && FileName(r) == r
    ensures var f := FileName(inputPath);
      Extension(f) == [] ==> GenerateOutputPath(inputPath) == "output_processed.mp4"
    ensures var f := FileName(inputPath); var r := GenerateOutputPath(inputPath);
      Extension(f) != [] ==> Extension(r) == Extension(f) && Stem(r) == Stem(f) + Suffix
  {
    var f := FileName(inputPath);
    if Extension(f) == [] {
      FixedNameFacts();
    } else {
      ProcessedFileName(f);
    }
  }

  /** "video" is a bare file name without an extension. */
  lemma BareName()
    ensures FileName("video") == "video" && Extension("video") == []
  {
    assert LastIndexOf("video", '/') == -1;
    assert LastIndexOf("video", '.') == -1;
  }

  /** The empty input has no extension. */
  lemma OutputPathOfEmpty()
    ensures GenerateOutputPath("") == "output_processed.mp4"
  {
    var f := FileName([]);
    assert LastIndexOf([], '/') == -1;
    assert f == [];
    assert ExtensionStart(f) == 0;
  }

  /** A bare name without a period has no extension. */
  lemma OutputPathOfBareName()
    ensures GenerateOutputPath("video") == "output_processed.mp4"
  {
    BareName();
  }

  /** A hidden file and ".." have no extension either. */
  lemma OutputPathLeadingPeriod()
    ensures GenerateOutputPath("dir/.hidden") == "output_processed.mp4"
    ensures GenerateOutputPath("..") == "output_processed.mp4"
  {
    LastIndexOfAt("dir/.hidden", '/', 3);
    assert FileName("dir/.hidden") == ".hidden";
    LastIndexOfAt(".hidden", '.', 0);
    assert LastIndexOf("..", '/') == -1;
    assert FileName("..") == "..";
  }

  /** The directories go, and the extension is kept after "_processed". */
  lemma OutputPathDropsDirectories()
    ensures GenerateOutputPath("videos/clip.avi") == "clip_processed.avi"
  {
    LastIndexOfAt("videos/clip.avi", '/', 6);
    assert FileName("videos/clip.avi") == "clip.avi";
    LastIndexOfAt("clip.avi", '.', 4);
    assert ExtensionStart("clip.avi") == 4;
    assert Stem("clip.avi") == "clip" && Extension("clip.avi") == ".avi";
    assert GenerateOutputPath("videos/clip.avi") == "clip" + Suffix + ".avi";
  }

  /** Only the last extension is kept apart from the stem. */
  lemma OutputPathLastExtension()
    ensures GenerateOutputPath("/data/b.tar.gz") == "b.tar_processed.gz"
  {
    LastIndexOfAt("/data/b.tar.gz", '/', 5);
    assert FileName("/data/b.tar.gz") == "b.tar.gz";
    LastIndexOfAt("b.tar.gz", '.', 5);
    assert ExtensionStart("b.tar.gz") == 5;
    assert Stem("b.tar.gz") == "b.tar" && Extension("b.tar.gz") == ".gz";
    assert GenerateOutputPath("/data/b.tar.gz") == "b.tar" + Suffix + ".gz";
  }
}
