/** The command-line match inside `get_vpp_pid`: 13 bytes of `/proc/<pid>/cmdline` are
    read into a 14-byte buffer, terminated, and cut in place at the first space. */
module VppPid {

  const NUL := '\0'
  const PATH := "/usr/bin/vpp"
  const SIZEOF_PATH := 13   // with its terminator

  function Min(a: nat, b: nat): nat {
    if a <= b then a else b
  }

  // ----- C strings

  /** The bytes before the first NUL. */
  function CStr(s: string): string {
    if s == "" || s[0] == NUL then "" else [s[0]] + CStr(s[1..])
  }

  function Blanks(s: string): (k: nat)
    ensures k <= |s|
  {
    if s == "" || s[0] != ' ' then 0 else 1 + Blanks(s[1..])
  }

  function Word(s: string): (w: string)
    ensures |w| <= |s|
  {
    if s == "" || s[0] == ' ' then "" else [s[0]] + Word(s[1..])
  }

  /** `strtok(s, " ")`, with "" for its NULL. */
  function Token(s: string): string {
    var c := CStr(s);
    Word(c[Blanks(c)..])
  }

  predicate IsName(word: string) {
    word == "vpp" || word == PATH
  }

  predicate IsVpp(s: string) {
    IsName(Token(s))
  }

  // ----- the buffer

  /** The string that starts at `buf[i]`. */
  ghost function StringAt(buf: array<char>, i: nat): string
    requires i <= buf.Length
    reads buf
  {
    CStr(buf[i..])
  }

  /** `!strcmp(buf + start, s)`. */
  method StringEquals(buf: array<char>, start: nat, s: string) returns (eq: bool)
    requires start < buf.Length && NUL in buf[start..]
    requires NUL !in s
    ensures eq == (StringAt(buf, start) == s)
  {
    var i := 0;
    while i < |s| && buf[start + i] == s[i]
      invariant 0 <= i <= |s| && start + i < buf.Length && NUL in buf[start + i..]
      invariant StringAt(buf, start) == s <==> StringAt(buf, start + i) == s[i..]
    {
      assert buf[start + i..][1..] == buf[start + i + 1..];
      assert s[i..][1..] == s[i + 1..];
      i := i + 1;
    }
    eq := i == |s| && buf[start + i] == NUL;
    assert buf[start + i..][0] == buf[start + i];
  }

  method SkipBlanks(buf: array<char>) returns (first: nat)
    requires NUL in buf[..]
    ensures first < buf.Length && NUL in buf[first..]
    ensures Word(StringAt(buf, first)) == Token(buf[..])
  {
    first := 0;
    assert buf[0..] == buf[..];
    while buf[first] == ' '
      invariant first < buf.Length && NUL in buf[first..]
      invariant Token(buf[..]) == Token(buf[first..])
      decreases buf.Length - first
    {
      assert buf[first..][1..] == buf[first + 1..];
      var c := CStr(buf[first..]);
      assert c == [' '] + CStr(buf[first + 1..]);
      assert c[Blanks(c)..] == c[1..][Blanks(c[1..])..];
      first := first + 1;
    }
    var c := CStr(buf[first..]);
    assert buf[first..][0] == buf[first];
    assert Blanks(c) == 0 && c[0..] == c;
  }

  method WordEnd(buf: array<char>, first: nat) returns (i: nat)
    requires first < buf.Length && NUL in buf[first..]
    ensures first <= i < buf.Length && (buf[i] == ' ' || buf[i] == NUL)
    ensures buf[first..i] == Word(StringAt(buf, first)) && NUL !in buf[first..i]
  {
    i := first;
    ghost var rest := buf[first..];
    WordIsPrefix(rest);
    while buf[i] != ' ' && buf[i] != NUL
      invariant first <= i < buf.Length && NUL in buf[i..]
      invariant |Word(CStr(rest))| == i - first + |Word(CStr(buf[i..]))|
      decreases buf.Length - i
    {
      WordStep(buf[i..]);
      assert buf[i..][1..] == buf[i + 1..];
      i := i + 1;
    }
    assert buf[i..][0] == buf[i];
    assert Word(CStr(buf[i..])) == "";
    assert buf[first..i] == rest[..i - first];
  }

  lemma {:induction false} WordIsPrefix(s: string)
    ensures var w := Word(CStr(s));
      |w| <= |s| && w == s[..|w|] && NUL !in w
  {
    if s != "" && s[0] != ' ' && s[0] != NUL {
      WordStep(s);
      WordIsPrefix(s[1..]);
    }
  }

  lemma {:induction false} WordStep(s: string)
    requires s != "" && s[0] != ' ' && s[0] != NUL
    ensures Word(CStr(s)) == [s[0]] + Word(CStr(s[1..]))
    ensures NUL in s ==> NUL in s[1..]
  {
    assert CStr(s)[1..] == CStr(s[1..]);
  }

  /** `strtok(buf, " ")`: writes NUL over the space after the word. The start of the word
      is returned, or the place of the terminator when there is no word. */
  method Strtok(buf: array<char>) returns (first: nat)
    requires NUL in buf[..]
    modifies buf
    ensures first < buf.Length && NUL in buf[first..]
    ensures StringAt(buf, first) == Token(old(buf[..]))
  {
    first := SkipBlanks(buf);
    var i := WordEnd(buf, first);
    ghost var word := buf[first..i];
    if buf[i] == ' ' {
      buf[i] := NUL;
    }
    assert buf[first..i] == word;
    assert buf[first..] == word + [NUL] + buf[i + 1..];
    CStrJoin(word, buf[i + 1..]);
  }

  lemma {:induction false} CStrJoin(s: string, rest: string)
    requires NUL !in s
    ensures CStr(s + [NUL] + rest) == s
  {
    if s != "" {
      assert (s + [NUL] + rest)[1..] == s[1..] + [NUL] + rest;
      CStrJoin(s[1..], rest);
    }
  }

  /** `bzero`, `fread` and the terminator, which goes at `buf[cnt]`: `cnt` is at most 13
      in a buffer of 14. */
  method Load(buf: array<char>, line: string, cnt: nat)
    requires buf.Length == SIZEOF_PATH + 1
    requires cnt == Min(|line|, SIZEOF_PATH)
    modifies buf
    ensures NUL in buf[..]
    ensures CStr(buf[..]) == CStr(line[..cnt])
  {
    forall i | 0 <= i < SIZEOF_PATH {
      buf[i] := NUL;
    }
    forall i | 0 <= i < cnt {
      buf[i] := line[i];
    }
    buf[cnt] := NUL;
    assert buf[..][cnt] == NUL;
    assert buf[..] == line[..cnt] + [NUL] + buf[cnt + 1..];
    CStrPrefix(line[..cnt], buf[cnt + 1..]);
  }

  /** One command line against the buffer: whether behind its leading spaces it begins with
      one of VPP's names as far as 13 bytes reach. */
  method MatchCmdline(buf: array<char>, line: string) returns (found: bool)
    requires buf.Length == SIZEOF_PATH + 1
    modifies buf
    ensures found == IsVpp(line[..Min(|line|, SIZEOF_PATH)])
    ensures found <==> Names(line, "vpp") || Names(line, "/usr/bin/vpp")
  {
    ReadsNames(line);
    var cnt := Min(|line|, SIZEOF_PATH);
    if cnt == 0 {
      return false;
    }
    Load(buf, line, cnt);
    var first := Strtok(buf);
    if buf[first] == NUL {
      assert buf[first..][0] == NUL;
      return false;
    }
    var isName := StringEquals(buf, first, "vpp");
    var isPath := StringEquals(buf, first, PATH);
    found := isName || isPath;
  }

  // ----- which lines those are

  /** The line is some spaces and then a word, which ends with the line, at a space or at a
      NUL, or just where the 13 bytes end. */
  predicate Names(line: string, word: string) {
    var k := Blanks(line);
    && k + |word| <= 13 && k + |word| <= |line|
    && line[k..k + |word|] == word
    && (k + |word| == 13 || k + |word| == |line| || line[k + |word|] == ' ' || line[k + |word|] == '\0')
  }

  predicate Plain(word: string) {
    forall i :: 0 <= i < |word| ==> word[i] != ' ' && word[i] != NUL
  }

  /** The first word of a string, if it has no spaces in front. */
  lemma {:induction false} WordIs(s: string, word: string)
    requires Plain(word)
    ensures Word(CStr(s)) == word
      <==> word <= s && (|s| == |word| || s[|word|] == ' ' || s[|word|] == NUL)
  {
    if s != "" && s[0] != ' ' && s[0] != NUL {
      WordStep(s);
      if word != "" {
        WordIs(s[1..], word[1..]);
        assert word <= s <==> word[0] == s[0] && word[1..] <= s[1..];
        assert word == [word[0]] + word[1..];
      }
    } else {
      assert Word(CStr(s)) == "";
    }
  }

  lemma {:induction false} TokenBehindBlanks(s: string)
    ensures Token(s) == Word(CStr(s[Blanks(s)..]))
  {
    if s != "" && s[0] == ' ' {
      TokenBehindBlanks(s[1..]);
      var c := CStr(s);
      assert c[1..] == CStr(s[1..]);
      assert c[Blanks(c)..] == c[1..][Blanks(c[1..])..];
      assert s[Blanks(s)..] == s[1..][Blanks(s[1..])..];
    } else {
      var c := CStr(s);
      assert Blanks(c) == 0 && c[0..] == c && s[0..] == s;
    }
  }

  lemma {:induction false} PrefixAt(line: string, k: nat, n: nat, word: string)
    requires k <= n <= |line|
    ensures word <= line[..n][k..] <==> k + |word| <= n && line[k..k + |word|] == word
  {
    if k + |word| <= n {
      assert line[..n][k..][..|word|] == line[k..k + |word|];
    }
  }

  lemma {:induction false} WordAt(line: string, k: nat, n: nat, word: string)
    requires k <= n <= |line| && Plain(word)
    ensures Word(CStr(line[..n][k..])) == word
      <==> && k + |word| <= n && line[k..k + |word|] == word
           && (k + |word| == n || line[k + |word|] == ' ' || line[k + |word|] == '\0')
  {
    var rest := line[..n][k..];
    WordIs(rest, word);
    PrefixAt(line, k, n, word);
    assert k + |word| < n ==> rest[|word|] == line[k + |word|];
  }

  lemma {:induction false} ReadsName(line: string, word: string)
    requires Plain(word) && word != ""
    ensures Token(line[..Min(|line|, 13)]) == word <==> Names(line, word)
  {
    var n := Min(|line|, 13);
    var k, s := Blanks(line), line[..n];
    BlanksCut(line, n);
    TokenBehindBlanks(s);
    if k <= n {
      assert Blanks(s) == k;
      WordAt(line, k, n, word);
    } else {
      assert s[n..] == "";
    }
  }

  lemma {:induction false} ReadsNames(line: string)
    ensures IsVpp(line[..Min(|line|, SIZEOF_PATH)]) <==> Names(line, "vpp") || Names(line, "/usr/bin/vpp")
  {
    ReadsName(line, "vpp");
    ReadsName(line, "/usr/bin/vpp");
  }

  /** On a line that does not start with a space: VPP is what is called "vpp" or
      "/usr/bin/vpp", with anything behind a space or a NUL. */
  lemma {:induction false} NamesWithoutBlanks(line: string, word: string)
    requires (line == "" || line[0] != ' ') && (word == "vpp" || word == "/usr/bin/vpp")
    ensures Names(line, word)
      <==> || line == word
           || (|line| > |word| && line[..|word|] == word && line[|word|] in [' ', '\0'])
  {
    assert Blanks(line) == 0 && |"/usr/bin/vpp"| == 12;
    if |line| >= |word| {
      assert line[0..0 + |word|] == line[..|word|];
      assert |line| == |word| ==> line[..|word|] == line;
    }
  }

  lemma {:induction false} BlanksOf(k: nat, rest: string)
    requires rest == "" || rest[0] != ' '
    ensures Blanks(seq(k, _ => ' ') + rest) == k
  {
    var line := seq(k, _ => ' ') + rest;
    if k > 0 {
      assert line[1..] == seq(k - 1, _ => ' ') + rest;
      BlanksOf(k - 1, rest);
    } else {
      assert line == rest;
    }
  }

  /** Behind `k` spaces: with one, whatever starts with the path is taken for it; from two
      on the path is not found, and from eleven on nothing; with ten, whatever starts with
      "vpp" is. */
  lemma {:induction false} NamesBehindBlanks(k: nat, rest: string)
    requires rest == "" || rest[0] != ' '
    ensures var line := seq(k, _ => ' ') + rest;
      && (Names(line, "/usr/bin/vpp") <==>
          || (k == 0 && Names(rest, "/usr/bin/vpp"))
          || (k == 1 && "/usr/bin/vpp" <= rest))
      && (Names(line, "vpp") <==>
          || (k <= 9 && Names(rest, "vpp"))
          || (k == 10 && "vpp" <= rest))
  {
    NamesShifted(k, rest, "vpp");
    NamesShifted(k, rest, "/usr/bin/vpp");
    assert |"/usr/bin/vpp"| == 12;
  }

  lemma {:induction false} NamesShifted(k: nat, rest: string, word: string)
    requires (rest == "" || rest[0] != ' ') && 0 < |word| < 13
    ensures var line := seq(k, _ => ' ') + rest;
      Names(line, word) <==>
      || (k + |word| < 13 && Names(rest, word))
      || (k + |word| == 13 && word <= rest)
  {
    var line := seq(k, _ => ' ') + rest;
    BlanksOf(k, rest);
    BlanksOf(0, rest);
    assert seq(0, _ => ' ') + rest == rest;
    if |word| <= |rest| {
      assert line[k..k + |word|] == rest[0..0 + |word|] == rest[..|word|];
    }
  }

  lemma {:induction false} CStrPrefix(s: string, rest: string)
    ensures CStr(s + [NUL] + rest) == CStr(s)
  {
    if s != "" {
      assert (s + [NUL] + rest)[1..] == s[1..] + [NUL] + rest;
      CStrPrefix(s[1..], rest);
    }
  }

  // ----- thirteen bytes against the whole line

  lemma {:induction false} CStrCut(s: string, n: nat)
    requires n <= |s|
    ensures CStr(s[..n]) == CStr(s)[..Min(n, |CStr(s)|)]
  {
    if n > 0 && s[0] != NUL {
      assert s[..n][1..] == s[1..][..n - 1];
      CStrCut(s[1..], n - 1);
    }
  }

  lemma {:induction false} BlanksCut(s: string, n: nat)
    requires n <= |s|
    ensures Blanks(s[..n]) == Min(n, Blanks(s))
  {
    if n > 0 && s[0] == ' ' {
      assert s[..n][1..] == s[1..][..n - 1];
      BlanksCut(s[1..], n - 1);
    }
  }

  lemma {:induction false} WordCut(s: string, n: nat)
    requires n <= |s|
    ensures Word(s[..n]) == Word(s)[..Min(n, |Word(s)|)]
  {
    if n > 0 && s[0] != ' ' {
      assert s[..n][1..] == s[1..][..n - 1];
      WordCut(s[1..], n - 1);
    }
  }

  /** The token of the first `n` bytes is the token of the line, cut where they end. */
  lemma {:induction false} TokenCut(line: string, n: nat)
    requires n <= |line|
    ensures var room := n - Min(n, Blanks(CStr(line)));
      Token(line[..n]) == Token(line)[..Min(room, |Token(line)|)]
  {
    CStrCut(line, n);
    WordAfterBlanks(CStr(line), Min(n, |CStr(line)|));
  }

  lemma {:induction false} WordAfterBlanks(c: string, m: nat)
    requires m <= |c|
    ensures var k, word := Blanks(c), Word(c[Blanks(c)..]);
      Word(c[..m][Blanks(c[..m])..]) == word[..Min(m - Min(m, k), |word|)]
  {
    BlanksCut(c, m);
    var k := Blanks(c);
    if k <= m {
      assert c[..m][k..] == c[k..][..m - k];
      WordCut(c[k..], m - k);
    }
  }

  /** Command lines on which reading only 13 bytes changes the answer: blanks in front
      push the name out of the buffer, or leave exactly the name of a longer word. */
  predicate Misjudged(line: string) {
    var k, word := Blanks(CStr(line)), Token(line);
    || (word == PATH && k >= 2)
    || (word == "vpp" && k >= 11)
    || (k == 1 && |word| > 12 && word[..12] == PATH)
    || (k == 10 && |word| > 3 && word[..3] == "vpp")
  }

  /** A word behind `k` blanks, cut where 13 bytes end. */
  lemma {:induction false} CutName(word: string, k: nat)
    ensures IsName(word[..Min(13 - Min(13, k), |word|)]) == IsName(word)
      <==> !(|| (word == PATH && k >= 2)
             || (word == "vpp" && k >= 11)
             || (k == 1 && |word| > 12 && word[..12] == PATH)
             || (k == 10 && |word| > 3 && word[..3] == "vpp"))
  {
    var room := 13 - Min(13, k);
    var cut := word[..Min(room, |word|)];
    assert |PATH| == 12 && PATH[0] != "vpp"[0];
    if room >= |word| {
      assert cut == word;
    } else if room == 12 {
      assert cut == word[..12];
    } else if room == 3 {
      assert cut == word[..3];
    } else {
      assert |cut| == room;
    }
  }

  /** Matching on 13 bytes agrees with matching on the whole line except for those. */
  lemma {:induction false} PrefixMatchExact(line: string)
    ensures IsVpp(line[..Min(|line|, SIZEOF_PATH)]) == IsVpp(line) <==> !Misjudged(line)
  {
    var n := Min(|line|, SIZEOF_PATH);
    if n < SIZEOF_PATH {
      assert line[..n] == line;
      CStrShort(line);
      assert |PATH| == 12 && Blanks(CStr(line)) + |Token(line)| <= 12;
    } else {
      TokenCut(line, n);
      CutName(Token(line), Blanks(CStr(line)));
    }
  }

  lemma {:induction false} CStrShort(s: string)
    ensures |CStr(s)| <= |s|
  {
    if s != "" {
      CStrShort(s[1..]);
    }
  }

  /** In particular they agree on every line that does not start with a space. */
  lemma {:induction false} NoLeadingSpace(line: string)
    requires line == "" || line[0] != ' '
    ensures IsVpp(line[..Min(|line|, SIZEOF_PATH)]) == IsVpp(line)
  {
    PrefixMatchExact(line);
  }
}
