/** The `key=value` scanner over the device properties file. */
module Properties {
  import opened Options

  /** Index of the first `c`, or the length (`npos`). */
  function Find(s: string, c: char): (n: nat)
    ensures n <= |s| && c !in s[..n] && (n < |s| ==> s[n] == c)
  {
    if s == [] || s[0] == c then 0
    else
      var n := Find(s[1..], c);
      assert s[..n + 1] == [s[0]] + s[1..][..n];
      n + 1
  }

  lemma {:induction false} FindIs(s: string, c: char, n: nat)
    requires n <= |s| && c !in s[..n] && (n < |s| ==> s[n] == c)
    ensures Find(s, c) == n
  {
    if n > 0 {
      assert s[0] in s[..n];
      assert forall x :: x in s[1..][..n - 1] ==> x in s[..n];
      FindIs(s[1..], c, n - 1);
    }
  }

  /** What repeated `std::getline` yields: a final line without newline counts, an empty rest does not. */
  function Lines(text: string): seq<string>
    decreases |text|
  {
    if text == [] then []
    else
      var n := Find(text, '\n');
      if n == |text| then [text] else [text[..n]] + Lines(text[n + 1..])
  }

  /** A line without '=' is its own key and its own value; a line starting with '=' is skipped. */
  predicate HasKey(line: string, key: string) {
    line != [] && Find(line, '=') > 0 && line[..Find(line, '=')] == key
  }

  function ValueOf(line: string): string {
    var n := Find(line, '=');
    if n == |line| then line else line[n + 1..]
  }

  /** First-match lookup over lines. */
  function FirstMatch(lines: seq<string>, key: string): Option<string> {
    if lines == [] then None
    else if HasKey(lines[0], key) then Some(ValueOf(lines[0]))
    else FirstMatch(lines[1..], key)
  }

  /** `FirstMatch` is the value of the first line that has the key, and `None` when no line has it. */
  lemma {:induction false} FirstMatchIsFirst(lines: seq<string>, key: string, i: nat)
    requires i <= |lines|
    requires forall k :: 0 <= k < i ==> !HasKey(lines[k], key)
    requires i < |lines| ==> HasKey(lines[i], key)
    ensures FirstMatch(lines, key) == if i < |lines| then Some(ValueOf(lines[i])) else None
  {
    if i > 0 {
      assert forall k :: 0 <= k < i - 1 ==> lines[1..][k] == lines[k + 1];
      FirstMatchIsFirst(lines[1..], key, i - 1);
    }
  }

  /** `text` is `None` when the file cannot be opened. The value is cleared on a miss. */
  method EnvGetValue(text: Option<string>, key: string) returns (found: bool, value: string)
    ensures found <==> text.Some? && FirstMatch(Lines(text.value), key).Some?
    ensures value == if found then FirstMatch(Lines(text.value), key).value else ""
  {
    found, value := false, "";
    if text == None {
      return;
    }
    var rest := text.value;
    while rest != []
      invariant FirstMatch(Lines(text.value), key) == FirstMatch(Lines(rest), key)
      decreases |rest|
    {
      var n := 0;
      while n < |rest| && rest[n] != '\n'
        invariant n <= |rest| && '\n' !in rest[..n]
      {
        n := n + 1;
      }
      FindIs(rest, '\n', n);
      var line := rest[..n];
      var after := if n == |rest| then [] else rest[n + 1..];
      if n == |rest| { assert line == rest; }
      assert Lines(rest) == [line] + Lines(after);
      var eq := Find(line, '=');
      if line != [] && eq > 0 {
        var itemKey := line[..eq];
        if itemKey == key {
          value := if eq == |line| then line else line[eq + 1..];
          found := true;
          return;
        }
      }
      assert ([line] + Lines(after))[1..] == Lines(after);
      rest := after;
    }
  }

  // ----- rendered files -----

  datatype Pair = Pair(key: string, value: string)

  ghost predicate Renderable(p: Pair) {
    p.key != [] && '=' !in p.key && '\n' !in p.key && '\n' !in p.value
  }

  function RenderLine(p: Pair): string { p.key + "=" + p.value }

  function Render(pairs: seq<Pair>): string {
    if pairs == [] then [] else RenderLine(pairs[0]) + "\n" + Render(pairs[1..])
  }

  function Lookup(pairs: seq<Pair>, key: string): Option<string> {
    if pairs == [] then None
    else if pairs[0].key == key then Some(pairs[0].value)
    else Lookup(pairs[1..], key)
  }

  lemma LineOfRender(line: string, rest: string)
    requires '\n' !in line
    ensures Lines(line + "\n" + rest) == [line] + Lines(rest)
  {
    var text := line + "\n" + rest;
    assert text[..|line|] == line && text[|line| + 1..] == rest;
    FindIs(text, '\n', |line|);
  }

  function Unlines(lines: seq<string>): string {
    if lines == [] then [] else lines[0] + "\n" + Unlines(lines[1..])
  }

  lemma LastLine(last: string)
    requires '\n' !in last
    ensures Lines(last) == if last == "" then [] else [last]
  {
    assert last[..|last|] == last;
    FindIs(last, '\n', |last|);
  }

  lemma UnlinesCons(line: string, lines: seq<string>, last: string)
    ensures Unlines([line] + lines) + last == line + "\n" + (Unlines(lines) + last)
  {
    assert ([line] + lines)[1..] == lines;
  }

  /** Reading gives back the lines a text was made of, and a last one that no newline ends. */
  lemma {:induction false} LinesExact(lines: seq<string>, last: string)
    requires (forall i :: 0 <= i < |lines| ==> '\n' !in lines[i]) && '\n' !in last
    ensures Lines(Unlines(lines) + last) == lines + if last == "" then [] else [last]
  {
    if lines == [] {
      assert Unlines(lines) + last == last;
      LastLine(last);
    } else {
      var line, rest := lines[0], lines[1..];
      assert lines == [line] + rest;
      LinesExact(rest, last);
      UnlinesCons(line, rest, last);
      LineOfRender(line, Unlines(rest) + last);
    }
  }

  lemma KeyOfRender(p: Pair, key: string)
    requires Renderable(p)
    ensures HasKey(RenderLine(p), key) <==> p.key == key
    ensures ValueOf(RenderLine(p)) == p.value
  {
    var line := RenderLine(p);
    assert line[..|p.key|] == p.key && line[|p.key| + 1..] == p.value;
    FindIs(line, '=', |p.key|);
  }

  /** Scanning a rendered file is association-list lookup, for every key asked for. */
  lemma {:induction false} ScanRendered(pairs: seq<Pair>, key: string)
    requires forall i :: 0 <= i < |pairs| ==> Renderable(pairs[i])
    ensures FirstMatch(Lines(Render(pairs)), key) == Lookup(pairs, key)
  {
    if pairs != [] {
      ScanRendered(pairs[1..], key);
      ScanFirst(pairs[0], Render(pairs[1..]), key);
    }
  }

  lemma RenderCons(p: Pair, pairs: seq<Pair>, last: string)
    ensures Render([p] + pairs) + last == RenderLine(p) + "\n" + (Render(pairs) + last)
  {
    assert ([p] + pairs)[1..] == pairs;
  }

  /** The same when no newline ends the last pair. */
  lemma {:induction false} ScanUnterminated(pairs: seq<Pair>, last: Pair, key: string)
    requires (forall i :: 0 <= i < |pairs| ==> Renderable(pairs[i])) && Renderable(last)
    ensures FirstMatch(Lines(Render(pairs) + RenderLine(last)), key) == Lookup(pairs + [last], key)
  {
    if pairs == [] {
      assert Render(pairs) + RenderLine(last) == RenderLine(last) && pairs + [last] == [last];
      LastLine(RenderLine(last));
      KeyOfRender(last, key);
    } else {
      var p, rest := pairs[0], pairs[1..];
      assert pairs == [p] + rest && (pairs + [last])[1..] == rest + [last];
      ScanUnterminated(rest, last, key);
      RenderCons(p, rest, RenderLine(last));
      ScanFirst(p, Render(rest) + RenderLine(last), key);
    }
  }

  lemma ScanFirst(p: Pair, text: string, key: string)
    requires Renderable(p)
    ensures FirstMatch(Lines(RenderLine(p) + "\n" + text), key) ==
            if p.key == key then Some(p.value) else FirstMatch(Lines(text), key)
  {
    assert '\n' !in RenderLine(p);
    LineOfRender(RenderLine(p), text);
    KeyOfRender(p, key);
    assert ([RenderLine(p)] + Lines(text))[1..] == Lines(text);
  }

  /** A line without '=' answers a query for its whole text with that text. */
  lemma BareLineIsItsOwnValue(line: string, rest: string)
    requires line != [] && '=' !in line && '\n' !in line
    ensures FirstMatch(Lines(line + "\n" + rest), line) == Some(line)
  {
    LineOfRender(line, rest);
    assert line[..|line|] == line;
    FindIs(line, '=', |line|);
    assert ([line] + Lines(rest))[0] == line;
  }
}
