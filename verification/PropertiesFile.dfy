/** The properties file: `key=value` lines, read into a map and printed from it. */
module PropertiesFile {
  import opened Sequences

  const MAX_LINE_SIZE := 1024
  const MAX_KEY_SIZE := 512
  const MAX_VALUE_SIZE := 512

  const NUL: char := '\0'

  predicate IsSpace(c: char) {
    c == ' ' || c == '\t' || c == '\n' || c == '\r' || c as int == 11 || c as int == 12
  }

  // ---------------------------------------------------------------- C strings

  /** The position of the first c, or the length. */
  function IndexOf(s: string, c: char): (i: nat)
    ensures i <= |s| && (forall j :: 0 <= j < i ==> s[j] != c) && (i < |s| ==> s[i] == c)
  {
    if s == "" || s[0] == c then 0 else 1 + IndexOf(s[1..], c)
  }

  /** The text in a character buffer, up to its terminating zero. */
  function Text(buf: seq<char>): (t: string)
    ensures NUL !in t
  {
    buf[..IndexOf(buf, NUL)]
  }

  function TrimLeft(s: string): string {
    if s != "" && IsSpace(s[0]) then TrimLeft(s[1..]) else s
  }

  function TrimRight(s: string): string {
    if s != "" && IsSpace(s[|s| - 1]) then TrimRight(s[..|s| - 1]) else s
  }

  function Trim(s: string): string { TrimRight(TrimLeft(s)) }

  lemma TextIs(buf: seq<char>, n: nat)
    requires n < |buf| && buf[n] == NUL && NUL !in buf[..n]
    ensures Text(buf) == buf[..n]
  {
  }

  lemma {:induction false} TrimLeftAt(s: string, k: nat)
    requires k <= |s| && (forall j :: 0 <= j < k ==> IsSpace(s[j])) && (k < |s| ==> !IsSpace(s[k]))
    ensures TrimLeft(s) == s[k..]
  {
    if k > 0 {
      TrimLeftAt(s[1..], k - 1);
      assert s[1..][k - 1..] == s[k..];
    }
  }

  lemma {:induction false} TrimRightAt(s: string, k: nat)
    requires k <= |s| && (forall j :: k <= j < |s| ==> IsSpace(s[j])) && (k > 0 ==> !IsSpace(s[k - 1]))
    ensures TrimRight(s) == s[..k]
  {
    if k < |s| {
      TrimRightAt(s[..|s| - 1], k);
      assert s[..|s| - 1][..k] == s[..k];
    }
  }

  /** strcpy within one buffer, from position `from` to its start. */
  method Shift(str: array<char>, from: nat)
    requires from <= IndexOf(str[..], NUL) < str.Length
    modifies str
    ensures Text(str[..]) == Text(old(str[..]))[from..] && IndexOf(str[..], NUL) < str.Length
  {
    ghost var was := str[..];
    ghost var end := IndexOf(was, NUL);
    var i := 0;
    while str[from + i] != NUL
      invariant from + i <= end && str[..i] == was[from..from + i] && str[i..] == was[i..]
      decreases end - i
    {
      str[i] := str[from + i];
      i := i + 1;
    }
    str[i] := NUL;
    assert str[..i] == was[from..end];
    TextIs(str[..], i);
  }

  /** LTrim */
  method LTrim(str: array<char>)
    requires IndexOf(str[..], NUL) < str.Length
    modifies str
    ensures Text(str[..]) == TrimLeft(Text(old(str[..]))) && IndexOf(str[..], NUL) < str.Length
  {
    ghost var text := Text(str[..]);
    var tmp := 0;
    while str[tmp] != NUL && IsSpace(str[tmp])
      invariant tmp <= |text| && forall j :: 0 <= j < tmp ==> IsSpace(text[j])
      decreases |text| - tmp
    {
      assert text[tmp] == str[tmp];
      tmp := tmp + 1;
    }
    assert tmp < |text| ==> text[tmp] == str[tmp];
    TrimLeftAt(text, tmp);
    Shift(str, tmp);
  }

  /** RTrim */
  method RTrim(str: array<char>)
    requires IndexOf(str[..], NUL) < str.Length
    modifies str
    ensures Text(str[..]) == TrimRight(Text(old(str[..]))) && IndexOf(str[..], NUL) < str.Length
  {
    ghost var text := Text(str[..]);
    var tmp := -1;
    var i := 0;
    while str[i] != NUL
      invariant i <= |text| && -1 <= tmp < i && (tmp >= 0 ==> !IsSpace(text[tmp]))
      invariant forall j :: tmp < j < i ==> IsSpace(text[j])
      decreases |text| - i
    {
      assert text[i] == str[i];
      if !IsSpace(str[i]) { tmp := i; }
      i := i + 1;
    }
    TrimRightAt(text, tmp + 1);
    str[tmp + 1] := NUL;
    assert str[..tmp + 1] == text[..tmp + 1];
    TextIs(str[..], tmp + 1);
  }

  method TrimBoth(str: array<char>)
    requires IndexOf(str[..], NUL) < str.Length
    modifies str
    ensures Text(str[..]) == Trim(Text(old(str[..])))
  {
    LTrim(str);
    RTrim(str);
  }

  /** strncpy: copies the text and fills up with zeros; without room for one, no zero ends the text. */
  method CopyText(dst: array<char>, src: string)
    requires NUL !in src
    modifies dst
    ensures IndexOf(dst[..], NUL) < dst.Length <==> |src| < dst.Length
    ensures |src| < dst.Length ==> Text(dst[..]) == src
  {
    forall i | 0 <= i < dst.Length { dst[i] := if i < |src| then src[i] else NUL; }
    if |src| < dst.Length {
      assert dst[..|src|] == src;
      TextIs(dst[..], |src|);
    }
  }

  // ---------------------------------------------------------------- lines

  datatype Pair = Pair(key: string, value: string)

  /** What a line adds to the map, if anything. */
  function PairOf(line: string): seq<Pair> {
    var d := IndexOf(line, '=');
    if d == |line| || d == 0 || d + 1 == |line| then []
    else [Pair(Trim(line[..d]), Trim(line[d + 1..]))]
  }

  predicate Skipped(line: string) {
    line == "" || line[0] == '\n' || line[0] == '#'
  }

  function Added(m: map<string, string>, line: string): map<string, string> {
    var p := PairOf(line);
    if p == [] then m else m[p[0].key := p[0].value]
  }

  /** The map after reading a text line by line; a line that does not fit the buffer ends it. */
  function Loaded(m: map<string, string>, text: string): map<string, string>
    decreases |text|
  {
    if text == "" then m
    else
      var n := IndexOf(text, '\n');
      if n >= MAX_LINE_SIZE then m
      else
        var line := Text(text[..n]);
        Loaded(if Skipped(line) then m else Added(m, line), if n == |text| then "" else text[n + 1..])
  }

  /** Where AddMap reads them, key and value have their terminating zero. */
  predicate LineFits(line: string) {
    var d := IndexOf(line, '=');
    d == |line| || d == 0 || (d < MAX_KEY_SIZE && |line| - d - 1 < MAX_VALUE_SIZE)
  }

  predicate TextFits(text: string)
    decreases |text|
  {
    text == ""
    || var n := IndexOf(text, '\n');
       n < MAX_LINE_SIZE ==>
         && (Skipped(Text(text[..n])) || LineFits(Text(text[..n])))
         && TextFits(if n == |text| then "" else text[n + 1..])
  }

  /** One entry as Flush prints it, cut off where snprintf cuts it. */
  function Printed(key: string, value: string): string {
    var line := key + "=" + value + "\n";
    if |line| < MAX_LINE_SIZE then line else line[..MAX_LINE_SIZE - 1]
  }

  function PrintedAll(m: map<string, string>, keys: seq<string>): string
    requires forall k :: k in keys ==> k in m
  {
    if keys == [] then "" else Printed(keys[0], m[keys[0]]) + PrintedAll(m, keys[1..])
  }

  class Properties {
    var entries: map<string, string>

    constructor ()
      ensures entries == map[]
    {
      entries := map[];
    }

    /** AddMap(char*): cuts the line at its first '=', trims both parts in their buffers. */
    method AddMap(line: string)
      requires NUL !in line && LineFits(line)
      modifies this
      ensures entries == Added(old(entries), line)
    {
      hide IndexOf, Trim;
      var delimiter := IndexOf(line, '=');
      if delimiter == |line| {
        return;
      }
      var name := new char[MAX_KEY_SIZE];
      var value := new char[MAX_VALUE_SIZE];
      CopyText(name, line[..delimiter]);
      CopyText(value, line[delimiter + 1..]);
      if delimiter == 0 || delimiter + 1 == |line| {
        return;
      }
      TrimBoth(name);
      TrimBoth(value);
      entries := entries[Text(name[..]) := Text(value[..])];
    }

    /** Load */
    method Load(text: string)
      requires TextFits(text)
      modifies this
      ensures entries == Loaded(old(entries), text)
    {
      hide Added, LineFits, Text;
      var rest := text;
      while rest != ""
        invariant Loaded(entries, rest) == Loaded(old(entries), text) && TextFits(rest)
        decreases |rest|
      {
        var n := IndexOf(rest, '\n');
        if n >= MAX_LINE_SIZE {
          break;
        }
        var line := Text(rest[..n]);
        if !Skipped(line) {
          AddMap(line);
        }
        rest := if n == |rest| then "" else rest[n + 1..];
      }
    }

    /** Flush: every entry, once, in the order of `keys`. */
    method Flush(keys: seq<string>) returns (text: string)
      requires Distinct(keys) && forall k {:trigger k in keys} :: k in keys <==> k in entries
      ensures text == PrintedAll(entries, keys)
    {
      text := "";
      var i := 0;
      while i < |keys|
        invariant i <= |keys| && forall key :: key in keys[i..] ==> key in entries
        invariant text + PrintedAll(entries, keys[i..]) == PrintedAll(entries, keys)
      {
        text := text + Printed(keys[i], entries[keys[i]]);
        i := i + 1;
      }
    }
  }

  // ---------------------------------------------------------------- what a line means, character by character

  /** Only the six characters of isspace: blank, tab, newline, vertical tab, form feed, return. */
  predicate Blank(s: string) {
    forall i {:trigger s[i]} :: 0 <= i < |s| ==> s[i] == ' ' || 9 <= s[i] as int <= 13
  }

  /** Neither the first character nor the last is one of them. */
  predicate Bare(s: string) {
    s == "" || (!Blank([s[0]]) && !Blank([s[|s| - 1]]))
  }

  /** Trimming takes off exactly the blanks around. */
  lemma TrimExact(p: string, k: string, q: string)
    requires Blank(p) && Bare(k) && Blank(q)
    ensures Trim(p + k + q) == k
  {
    var s := p + k + q;
    if k == "" {
      TrimLeftAt(s, |s|);
    } else {
      TrimLeftAt(s, |p|);
      assert s[|p|..] == k + q;
      TrimRightAt(k + q, |k|);
    }
  }

  /** A line with '=' stores what lies before the first one under what lies behind it, both without
    * the blanks around them; only a part that has not even a blank prevents it. */
  lemma AddedExact(m: map<string, string>, p: string, k: string, q: string, r: string, v: string, t: string)
    requires Blank(p) && Blank(q) && Blank(r) && Blank(t) && Bare(k) && Bare(v) && '=' !in k
    ensures var line := p + k + q + "=" + (r + v + t);
      Added(m, line) == if p + k + q == "" || r + v + t == "" then m else m[k := v]
  {
    assert '=' !in p && '=' !in q;
    TrimExact(p, k, q);
    TrimExact(r, v, t);
    hide Trim, Blank, Bare, PairOf;
    PairExact(p + k + q, r + v + t);
  }

  lemma PairExact(a: string, b: string)
    requires '=' !in a
    ensures PairOf(a + "=" + b) == if a == "" || b == "" then [] else [Pair(Trim(a), Trim(b))]
  {
    hide Trim;
    var line := a + "=" + b;
    assert line[..|a|] == a && line[|a|] == '=' && line[|a| + 1..] == b;
    IndexIs(line, '=', |a|);
  }

  /** A line without '=' stores nothing. */
  lemma NothingAdded(m: map<string, string>, line: string)
    requires '=' !in line
    ensures Added(m, line) == m
  {
    IndexIs(line, '=', |line|);
  }

  /** One line of a text, read up to its first zero. */
  lemma LoadedLine(m: map<string, string>, line: string, rest: string)
    requires '\n' !in line && |line| < 1024
    ensures Loaded(m, line + "\n" + rest)
      == Loaded(if Skipped(Text(line)) then m else Added(m, Text(line)), rest)
  {
    var text := line + "\n" + rest;
    hide Text, Skipped, Added;
    assert text[..|line|] == line && text[|line|] == '\n' && text[|line| + 1..] == rest;
    IndexIs(text, '\n', |line|);
  }

  /** Lines that begin with '#' or a zero, and empty lines, leave the map as it was. */
  lemma LineIgnored(m: map<string, string>, line: string, rest: string)
    requires line == "" || line[0] == '#' || line[0] == '\0'
    requires '\n' !in line && |line| < 1024
    ensures Loaded(m, line + "\n" + rest) == Loaded(m, rest)
  {
    LoadedLine(m, line, rest);
    assert IndexOf(line, NUL) > 0 ==> Text(line)[0] == line[0];
  }

  /** Any other line does what AddedExact says, and loading goes on behind it. */
  lemma LineLoaded(m: map<string, string>, p: string, k: string, q: string, r: string, v: string, t: string,
                   rest: string)
    requires Blank(p) && Blank(q) && Blank(r) && Blank(t) && Bare(k) && Bare(v) && '=' !in k
    requires p + k + q != "" && r + v + t != ""
    requires var line := p + k + q + "=" + (r + v + t);
      '\n' !in line && '\0' !in line && line[0] != '#' && |line| < 1024
    ensures Loaded(m, p + k + q + "=" + (r + v + t) + "\n" + rest) == Loaded(m[k := v], rest)
  {
    var line := p + k + q + "=" + (r + v + t);
    LoadedLine(m, line, rest);
    AddedExact(m, p, k, q, r, v, t);
    hide Added, Loaded, Blank, Bare;
    IndexIs(line, NUL, |line|);
    assert line[..|line|] == line;
  }

  /** The last line may lack its newline. */
  lemma LastLine(m: map<string, string>, line: string)
    requires '\n' !in line && |line| < 1024
    ensures Loaded(m, line) == Loaded(m, line + "\n")
  {
    if line == "" {
      LineIgnored(m, "", "");
      assert "" + "\n" + "" == "\n" == line + "\n";
    } else {
      LoadedLine(m, line, "");
      IndexIs(line, '\n', |line|);
      hide Text, Skipped, Added;
      assert line[..|line|] == line && line + "\n" + "" == line + "\n";
    }
  }

  /** A line of 1024 characters or more ends the loading. */
  lemma LongLineEnds(m: map<string, string>, line: string, rest: string)
    requires '\n' !in line && |line| >= 1024
    ensures Loaded(m, line + rest) == m
  {
    var text := line + rest;
    assert forall i :: 0 <= i < |line| ==> text[i] == line[i];
    assert IndexOf(text, '\n') >= |line|;
  }

  /** A printed entry is the line, or its first 1023 characters. */
  lemma PrintedExact(key: string, value: string)
    ensures var line := key + "=" + value + "\n";
      Printed(key, value) <= line && |Printed(key, value)| == if |line| <= 1023 then |line| else 1023
  {
  }

  // ---------------------------------------------------------------- the round trip

  predicate Clean(s: string) {
    s != "" && '\n' !in s && NUL !in s && !IsSpace(s[0]) && !IsSpace(s[|s| - 1])
  }

  /** Entries that survive: trimmed, on one line, with a key that is neither a comment nor cut by '='. */
  predicate Printable(key: string, value: string) {
    && Clean(key) && Clean(value) && '=' !in key && key[0] != '#'
    && |key| < MAX_KEY_SIZE && |value| < MAX_VALUE_SIZE && |key| + |value| <= MAX_LINE_SIZE - 3
  }

  lemma CleanIsTrimmed(s: string)
    requires Clean(s)
    ensures Trim(s) == s
  {
  }

  lemma IndexIs(s: string, c: char, n: nat)
    requires n <= |s| && c !in s[..n] && (n < |s| ==> s[n] == c)
    ensures IndexOf(s, c) == n
  {
  }

  lemma PrintedLine(key: string, value: string)
    requires Printable(key, value)
    ensures var line := key + "=" + value;
      PairOf(line) == [Pair(key, value)] && !Skipped(line) && LineFits(line) && Text(line) == line && '\n' !in line
  {
    var line := key + "=" + value;
    assert line[..|key|] == key && line[|key|] == '=' && line[|key| + 1..] == value;
    IndexIs(line, '=', |key|);
    IndexIs(line, NUL, |line|);
    assert line[..|line|] == line;
    CleanIsTrimmed(key);
    CleanIsTrimmed(value);
  }

  /** Loading a printed entry adds it and goes on with the rest. */
  lemma LoadedEntry(m: map<string, string>, key: string, value: string, rest: string)
    requires Printable(key, value)
    ensures Loaded(m, Printed(key, value) + rest) == Loaded(m[key := value], rest)
    ensures TextFits(Printed(key, value) + rest) == TextFits(rest)
  {
    var line := key + "=" + value;
    var text := Printed(key, value) + rest;
    PrintedLine(key, value);
    hide PairOf, Text, LineFits, Skipped;
    assert text[..|line|] == line && text[|line|] == '\n' && text[|line| + 1..] == rest;
    IndexIs(text, '\n', |line|);
  }

  function Restricted(m: map<string, string>, keys: seq<string>): map<string, string> {
    map k | k in m && k in keys :: m[k]
  }

  lemma {:induction false} LoadedAll(m: map<string, string>, keys: seq<string>, start: map<string, string>)
    requires forall k :: k in keys ==> k in m && Printable(k, m[k])
    ensures Loaded(start, PrintedAll(m, keys)) == start + Restricted(m, keys) && TextFits(PrintedAll(m, keys))
  {
    hide Printable, Printed, Loaded, TextFits;
    if keys == [] {
      NothingLoaded(start);
      assert start + Restricted(m, keys) == start;
    } else {
      var k := keys[0];
      assert k in keys;
      LoadedEntry(start, k, m[k], PrintedAll(m, keys[1..]));
      LoadedAll(m, keys[1..], start[k := m[k]]);
      assert start[k := m[k]] + Restricted(m, keys[1..]) == start + Restricted(m, keys);
    }
  }

  lemma NothingLoaded(m: map<string, string>)
    ensures Loaded(m, "") == m && TextFits("")
  {
  }

  /** Printing all entries, in any order, and loading the text into an empty map restores the map. */
  lemma RoundTrip(m: map<string, string>, keys: seq<string>)
    requires forall k {:trigger k in keys} :: k in keys <==> k in m
    requires forall k {:trigger m[k]} :: k in m ==> Printable(k, m[k])
    ensures Loaded(map[], PrintedAll(m, keys)) == m && TextFits(PrintedAll(m, keys))
  {
    LoadedAll(m, keys, map[]);
    assert map[] + Restricted(m, keys) == m;
  }
}
