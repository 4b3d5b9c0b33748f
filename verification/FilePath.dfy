/** Slash-separated paths: splitting, joining and the lexical functions of Go's path/filepath. */
module FilePath {

  predicate SlashFree(s: string) {
    '/' !in s
  }

  function Split(s: string): (r: seq<string>)
    ensures |r| >= 1
  {
    if s == "" then [""]
    else
      var rest := Split(s[1..]);
      if s[0] == '/' then [""] + rest else [[s[0]] + rest[0]] + rest[1..]
  }

  function Joined(cs: seq<string>): string {
    if cs == [] then "" else if |cs| == 1 then cs[0] else Joined(cs[..|cs| - 1]) + "/" + cs[|cs| - 1]
  }

  // ----- path/filepath -----

  /** Drops "." and empty components and lets ".." take back the component before it. */
  function Resolve(cs: seq<string>, rooted: bool): seq<string> {
    if cs == [] then [] else
      var out, c := Resolve(cs[..|cs| - 1], rooted), cs[|cs| - 1];
      if c == "" || c == "." then out
      else if c != ".." then out + [c]
      else if out != [] && out[|out| - 1] != ".." then out[..|out| - 1]
      else if rooted then out
      else out + [c]
  }

  function Clean(path: string): string {
    var rooted := path != "" && path[0] == '/';
    var out := (if rooted then "/" else "") + Joined(Resolve(Split(path), rooted));
    if out == "" then "." else out
  }

  /** Up to and including the last slash. */
  function DirPart(path: string): string {
    if path == "" || path[|path| - 1] == '/' then path else DirPart(path[..|path| - 1])
  }

  function Dir(path: string): string {
    Clean(DirPart(path))
  }

  function Join(a: string, b: string): string {
    if a == "" && b == "" then "" else if a == "" then Clean(b) else if b == "" then Clean(a) else Clean(a + "/" + b)
  }

  /** What cleaning does with each kind of last component. */
  lemma {:induction false} ResolveLast(cs: seq<string>, c: string, rooted: bool)
    ensures c == "" || c == "." ==> Resolve(cs + [c], rooted) == Resolve(cs, rooted)
    ensures c != "" && c != "." && c != ".." ==> Resolve(cs + [c], rooted) == Resolve(cs, rooted) + [c]
    ensures var out := Resolve(cs, rooted);
            c == ".." && out != [] && out[|out| - 1] != ".." ==> out == Resolve(cs + [c], rooted) + [out[|out| - 1]]
    ensures var out := Resolve(cs, rooted);
            c == ".." && (out == [] || out[|out| - 1] == "..") ==> Resolve(cs + [c], rooted) == if rooted then out else out + [".."]
  {
    assert (cs + [c])[..|cs|] == cs;
  }

  // ----- paths of plain components -----

  /** A component that names a file or directory below the one before it. */
  predicate Plain(c: string) {
    c != "" && c != "." && c != ".." && SlashFree(c)
  }

  predicate AllPlain(cs: seq<string>) {
    forall i :: 0 <= i < |cs| ==> Plain(cs[i])
  }

  lemma {:induction false} SplitSlashFree(c: string)
    requires SlashFree(c)
    ensures Split(c) == [c]
  {
    if c != "" {
      SplitSlashFree(c[1..]);
      assert c[0] in c;
      assert [c[0]] + c[1..] == c;
    }
  }

  /** Splitting at the last of two parts. */
  lemma {:induction false} SplitLast(s: string, c: string)
    requires SlashFree(c)
    ensures Split(s + "/" + c) == Split(s) + [c]
  {
    if s == "" {
      SplitSlashFree(c);
      assert (s + "/" + c)[1..] == c;
    } else {
      SplitLast(s[1..], c);
      assert (s + "/" + c)[1..] == s[1..] + "/" + c;
    }
  }

  lemma JoinedLast(cs: seq<string>, c: string)
    requires cs != []
    ensures Joined(cs + [c]) == Joined(cs) + "/" + c
  {
    assert (cs + [c])[..|cs|] == cs;
  }

  /** Components can be read back from a path. */
  lemma {:induction false} SplitJoined(cs: seq<string>)
    requires cs != [] && forall i :: 0 <= i < |cs| ==> SlashFree(cs[i])
    ensures Split(Joined(cs)) == cs
  {
    if |cs| == 1 {
      SplitSlashFree(cs[0]);
    } else {
      var n := |cs| - 1;
      SplitJoined(cs[..n]);
      SplitLast(Joined(cs[..n]), cs[n]);
      assert cs[..n] + [cs[n]] == cs;
    }
  }

  lemma {:induction false} ResolvePlain(cs: seq<string>, rooted: bool)
    requires AllPlain(cs)
    ensures Resolve(cs, rooted) == cs
  {
    if cs != [] {
      ResolvePlain(cs[..|cs| - 1], rooted);
    }
  }

  lemma {:induction false} PlainStart(cs: seq<string>)
    requires cs != [] && AllPlain(cs)
    ensures Joined(cs) != "" && Joined(cs)[0] != '/'
  {
    if |cs| > 1 {
      PlainStart(cs[..|cs| - 1]);
    }
  }

  lemma CleanUnrooted(path: string, cs: seq<string>)
    requires path != "" && path[0] != '/' && Resolve(Split(path), false) == cs && Joined(cs) != ""
    ensures Clean(path) == Joined(cs)
  {
    assert "" + Joined(cs) == Joined(cs);
  }

  /** A slash at the end does not matter. */
  lemma {:induction false} CleanPlain(cs: seq<string>)
    requires cs != [] && AllPlain(cs)
    ensures Clean(Joined(cs)) == Joined(cs) && Clean(Joined(cs) + "/") == Joined(cs)
  {
    var path := Joined(cs);
    PlainStart(cs);
    SplitJoined(cs);
    ResolvePlain(cs, false);
    CleanUnrooted(path, cs);
    SplitLast(path, "");
    assert path + "/" + "" == path + "/";
    ResolveEmpty(cs);
    CleanUnrooted(path + "/", cs);
  }

  lemma ResolveEmpty(cs: seq<string>)
    ensures Resolve(cs + [""], false) == Resolve(cs, false)
  {
    assert (cs + [""])[..|cs|] == cs;
  }

  lemma {:induction false} DirPartLast(s: string, c: string)
    requires SlashFree(c)
    ensures DirPart(s + "/" + c) == s + "/"
  {
    var path := s + "/" + c;
    if c == "" {
      assert path == s + "/";
    } else {
      var n := |c| - 1;
      DirPartLast(s, c[..n]);
      assert path[..|path| - 1] == s + "/" + c[..n];
      assert path[|path| - 1] == c[n];
    }
  }

  /** The parent of a plain path drops its last component, and joining adds one. */
  lemma DirPlain(cs: seq<string>, c: string)
    requires cs != [] && AllPlain(cs) && Plain(c)
    ensures Dir(Joined(cs + [c])) == Joined(cs)
    ensures Join(Joined(cs), c) == Joined(cs + [c])
  {
    JoinedLast(cs, c);
    DirPartLast(Joined(cs), c);
    CleanPlain(cs);
    PlainStart(cs);
    CleanPlain(cs + [c]);
  }

  /** The path is the directory or lies below it, component by component. */
  predicate Below(path: string, dir: string) {
    Split(dir) <= Split(path)
  }

  lemma BelowJoined(cs: seq<string>, ds: seq<string>)
    requires cs != [] && ds != [] && AllPlain(cs) && AllPlain(ds)
    ensures Below(Joined(cs), Joined(ds)) <==> ds <= cs
    ensures Joined(cs) == Joined(ds) <==> cs == ds
  {
    SplitJoined(cs);
    SplitJoined(ds);
  }
}
