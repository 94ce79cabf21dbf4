/** The credential rewrite of `setup_tab` in artistrack/web.py: the `.env` file is
    read with `readlines`, every line starting with a key is replaced by the new
    key line, a key with no line is appended, and the lines are written back with
    `writelines`. Files are strings; `readlines` and `writelines` are modelled
    exactly, so a rewrite can be judged by what the next reader sees. */
module EnvFile {
  import opened Text
  import Lists

  const IdKey := "SPOTIFY_CLIENT_ID="
  const SecretKey := "SPOTIFY_CLIENT_SECRET="

  function IdLine(id: string): string { IdKey + id + "\n" }
  function SecretLine(secret: string): string { SecretKey + secret + "\n" }

  // ---------------------------------------------------------------------------
  // readlines / writelines.

  /** `readlines`: the text cut after every newline; a final piece without one is
      the last line. */
  function ReadLines(s: string): seq<string>
    decreases |s|
  {
    if |s| == 0 then []
    else
      var rest := ReadLines(s[1..]);
      if s[0] == '\n' || |rest| == 0 then [[s[0]]] + rest
      else [[s[0]] + rest[0]] + rest[1..]
  }

  /** `writelines`: the lines concatenated, nothing added. */
  function Join(lines: seq<string>): string
    decreases |lines|
  {
    if |lines| == 0 then "" else lines[0] + Join(lines[1..])
  }

  predicate NoNewline(s: string) {
    forall i :: 0 <= i < |s| ==> s[i] != '\n'
  }

  /** One line as `readlines` yields it: non-empty, a newline at most at its end. */
  predicate IsLine(l: string) {
    |l| > 0 && forall i :: 0 <= i < |l| - 1 ==> l[i] != '\n'
  }

  predicate Terminated(l: string) {
    |l| > 0 && l[|l| - 1] == '\n'
  }

  /** The shape of every `readlines` result: lines, each but the last terminated. */
  predicate WellFormed(lines: seq<string>) {
    (forall i :: 0 <= i < |lines| ==> IsLine(lines[i])) &&
    (forall i :: 0 <= i < |lines| - 1 ==> Terminated(lines[i]))
  }

  /** Reading loses nothing and always yields the well-formed shape. */
  lemma ReadLinesShape(s: string)
    ensures Join(ReadLines(s)) == s
    ensures WellFormed(ReadLines(s))
  {
    ReadLinesJoin(s);
    ReadLinesWellFormed(s);
  }

  lemma {:induction false} ReadLinesJoin(s: string)
    ensures Join(ReadLines(s)) == s
    decreases |s|
  {
    if |s| > 0 {
      ReadLinesJoin(s[1..]);
      var rest := ReadLines(s[1..]);
      assert s == [s[0]] + s[1..];
      if s[0] != '\n' && |rest| > 0 {
        assert Join(rest) == rest[0] + Join(rest[1..]) by {
          assert rest == [rest[0]] + rest[1..];
          JoinCons(rest[0], rest[1..]);
        }
        JoinCons([s[0]] + rest[0], rest[1..]);
        Lists.AppendAssoc([s[0]], rest[0], Join(rest[1..]));
      } else {
        JoinCons([s[0]], rest);
      }
    }
  }

  lemma {:induction false} ReadLinesWellFormed(s: string)
    ensures WellFormed(ReadLines(s))
    decreases |s|
  {
    if |s| > 0 {
      ReadLinesWellFormed(s[1..]);
      var rest := ReadLines(s[1..]);
      if s[0] != '\n' && |rest| > 0 {
        WellFormedMerge(s[0], rest);
      } else {
        WellFormedCons(s[0], rest);
      }
    }
  }

  /** A character other than a newline joins the first line. */
  lemma WellFormedMerge(c: char, rest: seq<string>)
    requires WellFormed(rest) && |rest| > 0 && c != '\n'
    ensures WellFormed([[c] + rest[0]] + rest[1..])
  {
    var r := [[c] + rest[0]] + rest[1..];
    assert forall i :: 1 <= i < |r| ==> r[i] == rest[i];
    assert IsLine(rest[0]);
    assert forall i :: 1 <= i < |r[0]| ==> r[0][i] == rest[0][i - 1];
  }

  /** A newline, or the last character, is a line of its own. */
  lemma WellFormedCons(c: char, rest: seq<string>)
    requires WellFormed(rest) && (c == '\n' || |rest| == 0)
    ensures WellFormed([[c]] + rest)
  {
    var r := [[c]] + rest;
    assert forall i :: 1 <= i < |r| ==> r[i] == rest[i - 1];
  }

  lemma {:induction false} ReadTerminatedLine(l: string, rest: string)
    requires IsLine(l) && Terminated(l)
    ensures ReadLines(l + rest) == [l] + ReadLines(rest)
    decreases |l|
  {
    var s := l + rest;
    assert s[1..] == l[1..] + rest;
    if |l| > 1 {
      ReadTerminatedLine(l[1..], rest);
      assert [s[0]] + l[1..] == l;
    } else {
      assert l == [s[0]];
    }
  }

  lemma {:induction false} ReadLastLine(l: string)
    requires IsLine(l)
    ensures ReadLines(l) == [l]
    decreases |l|
  {
    if |l| > 1 {
      ReadLastLine(l[1..]);
      assert [l[0]] + l[1..] == l;
    } else {
      assert l == [l[0]];
    }
  }

  /** Writing then reading gives back exactly the well-formed line lists; by
      `ReadLinesShape` no other list is ever read back. */
  lemma {:induction false} ReadWritten(lines: seq<string>)
    requires WellFormed(lines)
    ensures ReadLines(Join(lines)) == lines
    decreases |lines|
  {
    if |lines| == 1 {
      ReadLastLine(lines[0]);
      assert Join(lines) == lines[0];
    } else if |lines| > 1 {
      assert WellFormed(lines[1..]);
      ReadWritten(lines[1..]);
      ReadTerminatedLine(lines[0], Join(lines[1..]));
    }
  }

  // ---------------------------------------------------------------------------
  // The rewrite (web.py:732-743).

  /** One line after the replacement loop; the `elif` tests the secret key only on
      lines that do not start with the id key. */
  function Replace(l: string, id: string, secret: string): string {
    if StartsWith(l, IdKey) then IdLine(id)
    else if StartsWith(l, SecretKey) then SecretLine(secret)
    else l
  }

  function ReplaceAll(lines: seq<string>, id: string, secret: string): (r: seq<string>)
    ensures |r| == |lines| && forall i :: 0 <= i < |lines| ==> r[i] == Replace(lines[i], id, secret)
  {
    seq(|lines|, i requires 0 <= i < |lines| => Replace(lines[i], id, secret))
  }

  predicate HasKey(lines: seq<string>, key: string) {
    exists i :: 0 <= i < |lines| && StartsWith(lines[i], key)
  }

  /** The lines appended for keys with no line: id before secret. */
  function Missing(lines: seq<string>, id: string, secret: string): seq<string> {
    (if HasKey(lines, IdKey) then [] else [IdLine(id)]) +
    (if HasKey(lines, SecretKey) then [] else [SecretLine(secret)])
  }

  /** The rewrite as written: replaced lines, then the missing keys appended to
      whatever the last line was. */
  function RewriteAsWritten(lines: seq<string>, id: string, secret: string): seq<string> {
    ReplaceAll(lines, id, secret) + Missing(lines, id, secret)
  }

  /** The last line given its newline, so that an appended line starts a line. */
  function Terminate(lines: seq<string>): (r: seq<string>)
    ensures |r| == |lines|
  {
    if |lines| > 0 && !Terminated(lines[|lines| - 1]) then lines[..|lines| - 1] + [lines[|lines| - 1] + "\n"]
    else lines
  }

  /** The rewrite as intended: the same, except that a last line without a newline
      is terminated before anything is appended after it. */
  function RewriteEnv(lines: seq<string>, id: string, secret: string): seq<string> {
    if Missing(lines, id, secret) == [] then ReplaceAll(lines, id, secret)
    else Terminate(ReplaceAll(lines, id, secret)) + Missing(lines, id, secret)
  }

  lemma KeyLines(id: string, secret: string)
    ensures StartsWith(IdLine(id), IdKey) && !StartsWith(IdLine(id), SecretKey)
    ensures StartsWith(SecretLine(secret), SecretKey) && !StartsWith(SecretLine(secret), IdKey)
  {
    assert IdLine(id)[15] == 'I' && SecretKey[15] == 'S';
    assert SecretLine(secret)[15] == 'S' && IdKey[15] == 'I';
  }

  /** Both rewrites replace every key line with the new one, keep every other line
      where it was, and add one line per missing key, id first; when both keys were
      present the line count is unchanged. Afterwards both keys have a line. */
  lemma RewriteAsWrittenSpec(lines: seq<string>, id: string, secret: string)
    ensures var r := RewriteAsWritten(lines, id, secret);
            |r| == |lines| + (if HasKey(lines, IdKey) then 0 else 1) + (if HasKey(lines, SecretKey) then 0 else 1) &&
            (forall i :: 0 <= i < |lines| && StartsWith(lines[i], IdKey) ==> r[i] == IdLine(id)) &&
            (forall i :: 0 <= i < |lines| && StartsWith(lines[i], SecretKey) ==> r[i] == SecretLine(secret)) &&
            (forall i :: 0 <= i < |lines| && !StartsWith(lines[i], IdKey) && !StartsWith(lines[i], SecretKey) ==> r[i] == lines[i]) &&
            (!HasKey(lines, IdKey) ==> r[|lines|] == IdLine(id)) &&
            (!HasKey(lines, SecretKey) ==> r[|r| - 1] == SecretLine(secret)) &&
            HasKey(r, IdKey) && HasKey(r, SecretKey)
  {
    var r := RewriteAsWritten(lines, id, secret);
    var rep, miss := ReplaceAll(lines, id, secret), Missing(lines, id, secret);
    assert |miss| == (if HasKey(lines, IdKey) then 0 else 1) + (if HasKey(lines, SecretKey) then 0 else 1);
    assert forall i :: 0 <= i < |lines| ==> r[i] == rep[i];
    assert forall i :: 0 <= i < |miss| ==> r[|lines| + i] == miss[i];
    forall i | 0 <= i < |lines| && StartsWith(lines[i], SecretKey)
      ensures !StartsWith(lines[i], IdKey)
    {
      KeysExclusive(lines[i]);
    }
    AsWrittenHasKeys(lines, id, secret);
  }

  lemma AsWrittenHasKeys(lines: seq<string>, id: string, secret: string)
    ensures HasKey(RewriteAsWritten(lines, id, secret), IdKey)
    ensures HasKey(RewriteAsWritten(lines, id, secret), SecretKey)
  {
    var r := RewriteAsWritten(lines, id, secret);
    KeyLines(id, secret);
    if HasKey(lines, IdKey) {
      var i :| 0 <= i < |lines| && StartsWith(lines[i], IdKey);
      assert StartsWith(r[i], IdKey);
    } else {
      assert StartsWith(r[|lines|], IdKey);
    }
    if HasKey(lines, SecretKey) {
      var i :| 0 <= i < |lines| && StartsWith(lines[i], SecretKey);
      assert StartsWith(r[i], SecretKey);
    } else {
      assert StartsWith(r[|r| - 1], SecretKey);
    }
  }

  /** The newline finding, as written: a well-formed file whose last line has no
      newline and no key line gets the id line glued onto that last line, so the
      next reader sees one merged line instead of the lines the rewrite produced. */
  lemma AsWrittenMergesLastLine(lines: seq<string>, id: string, secret: string)
    requires WellFormed(lines) && |lines| > 0
    requires !Terminated(lines[|lines| - 1]) && !StartsWith(lines[|lines| - 1], SecretKey)
    requires !HasKey(lines, IdKey)
    requires NoNewline(id) && NoNewline(secret)
    ensures var r := RewriteAsWritten(lines, id, secret);
            !WellFormed(r) &&
            ReadLines(Join(r)) != r &&
            ReadLines(Join(r)) == Merged(lines, id, secret)
  {
    var r := RewriteAsWritten(lines, id, secret);
    var n := |lines|;
    assert r[n - 1] == lines[n - 1] && !Terminated(r[n - 1]) && n - 1 < |r| - 1;
    ReadLinesShape(Join(r));
    MergedJoin(lines, id, secret);
    MergedWellFormed(lines, id, secret);
    ReadWritten(Merged(lines, id, secret));
  }

  /** What the next reader gets from the as-written rewrite of such a file. */
  function Merged(lines: seq<string>, id: string, secret: string): seq<string>
    requires |lines| > 0
  {
    ReplaceAll(lines, id, secret)[..|lines| - 1] + [lines[|lines| - 1] + IdLine(id)] +
    (if HasKey(lines, SecretKey) then [] else [SecretLine(secret)])
  }

  lemma MergedJoin(lines: seq<string>, id: string, secret: string)
    requires |lines| > 0 && !HasKey(lines, IdKey)
    requires !Terminated(lines[|lines| - 1]) && !StartsWith(lines[|lines| - 1], SecretKey)
    ensures Join(Merged(lines, id, secret)) == Join(RewriteAsWritten(lines, id, secret))
  {
    var n := |lines|;
    var rep := ReplaceAll(lines, id, secret);
    var tail := if HasKey(lines, SecretKey) then [] else [SecretLine(secret)];
    var a := rep[..n - 1];
    var x := lines[n - 1];
    var key := IdLine(id);
    assert RewriteAsWritten(lines, id, secret) == a + ([x] + ([key] + tail)) by {
      assert rep[n - 1] == x;
      assert rep == a + [x];
      assert Missing(lines, id, secret) == [key] + tail;
    }
    assert Join(a + ([x] + ([key] + tail))) == Join(a) + (x + (key + Join(tail))) by {
      JoinAppend(a, [x] + ([key] + tail));
      JoinCons(x, [key] + tail);
      JoinCons(key, tail);
    }
    assert Merged(lines, id, secret) == a + ([x + key] + tail);
    assert Join(a + ([x + key] + tail)) == Join(a) + ((x + key) + Join(tail)) by {
      JoinAppend(a, [x + key] + tail);
      JoinCons(x + key, tail);
    }
    Lists.AppendAssoc(x, key, Join(tail));
  }

  lemma MergedWellFormed(lines: seq<string>, id: string, secret: string)
    requires WellFormed(lines) && |lines| > 0 && !HasKey(lines, IdKey)
    requires !Terminated(lines[|lines| - 1]) && !StartsWith(lines[|lines| - 1], SecretKey)
    requires NoNewline(id) && NoNewline(secret)
    ensures WellFormed(Merged(lines, id, secret))
  {
    var n := |lines|;
    var m := Merged(lines, id, secret);
    var rep := ReplaceAll(lines, id, secret);
    MergedIsLine(lines[n - 1], id);
    RepLinesWellFormed(lines, id, secret);
    KeyLinesAreLines(id, secret);
    assert forall i :: 0 <= i < n - 1 ==> m[i] == rep[i];
    assert m[n - 1] == lines[n - 1] + IdLine(id);
    assert forall i :: n <= i < |m| ==> m[i] == SecretLine(secret);
  }

  lemma JoinCons(x: string, s: seq<string>)
    ensures Join([x] + s) == x + Join(s)
  {
    assert ([x] + s)[1..] == s;
  }

  lemma {:induction false} JoinAppend(a: seq<string>, b: seq<string>)
    ensures Join(a + b) == Join(a) + Join(b)
    decreases |a|
  {
    if |a| == 0 {
      assert a + b == b;
    } else {
      JoinAppend(a[1..], b);
      assert a + b == [a[0]] + (a[1..] + b);
      JoinCons(a[0], a[1..] + b);
      JoinCons(a[0], a[1..]);
      assert [a[0]] + a[1..] == a;
    }
  }

  lemma MergedIsLine(last: string, id: string)
    requires IsLine(last) && !Terminated(last) && NoNewline(id)
    ensures IsLine(last + IdLine(id)) && Terminated(last + IdLine(id))
  {
  }

  lemma KeyLinesAreLines(id: string, secret: string)
    requires NoNewline(id) && NoNewline(secret)
    ensures IsLine(IdLine(id)) && Terminated(IdLine(id))
    ensures IsLine(SecretLine(secret)) && Terminated(SecretLine(secret))
  {
  }

  /** The replacement loop keeps the well-formed shape: replaced lines are
      terminated lines, the others are untouched. */
  lemma RepLinesWellFormed(lines: seq<string>, id: string, secret: string)
    requires WellFormed(lines) && NoNewline(id) && NoNewline(secret)
    ensures WellFormed(ReplaceAll(lines, id, secret))
  {
    KeyLinesAreLines(id, secret);
  }

  /** The corrected rewrite writes a file that reads back as exactly the lines it
      produced. */
  lemma RewriteEnvReadsBack(lines: seq<string>, id: string, secret: string)
    requires WellFormed(lines) && NoNewline(id) && NoNewline(secret)
    ensures WellFormed(RewriteEnv(lines, id, secret))
    ensures ReadLines(Join(RewriteEnv(lines, id, secret))) == RewriteEnv(lines, id, secret)
  {
    var rep := ReplaceAll(lines, id, secret);
    var miss := Missing(lines, id, secret);
    var r := RewriteEnv(lines, id, secret);
    RepLinesWellFormed(lines, id, secret);
    if miss != [] {
      KeyLinesAreLines(id, secret);
      TerminateSpec(rep);
      var t := Terminate(rep);
      assert r == t + miss;
      assert forall i :: |t| <= i < |r| ==> r[i] == IdLine(id) || r[i] == SecretLine(secret);
    }
    ReadWritten(r);
  }

  /** The corrected rewrite's contents: key lines replaced, lines with no key kept
      (the last may gain its newline), missing keys appended id first, and both
      keys present afterwards. */
  lemma RewriteEnvSpec(lines: seq<string>, id: string, secret: string)
    ensures var r := RewriteEnv(lines, id, secret);
            |r| == |lines| + (if HasKey(lines, IdKey) then 0 else 1) + (if HasKey(lines, SecretKey) then 0 else 1) &&
            (forall i :: 0 <= i < |lines| && StartsWith(lines[i], IdKey) ==> r[i] == IdLine(id)) &&
            (forall i :: 0 <= i < |lines| && StartsWith(lines[i], SecretKey) ==> r[i] == SecretLine(secret)) &&
            (forall i :: 0 <= i < |lines| && !StartsWith(lines[i], IdKey) && !StartsWith(lines[i], SecretKey) ==>
               r[i] == lines[i] || (i == |lines| - 1 && r[i] == lines[i] + "\n")) &&
            (!HasKey(lines, IdKey) ==> r[|lines|] == IdLine(id)) &&
            (!HasKey(lines, SecretKey) ==> r[|r| - 1] == SecretLine(secret)) &&
            HasKey(r, IdKey) && HasKey(r, SecretKey)
  {
    RewriteEnvKept(lines, id, secret);
    RewriteEnvKeys(lines, id, secret);
  }

  lemma RewriteEnvKept(lines: seq<string>, id: string, secret: string)
    ensures var r := RewriteEnv(lines, id, secret);
            |r| == |lines| + |Missing(lines, id, secret)| &&
            (forall i :: 0 <= i < |lines| && StartsWith(lines[i], IdKey) ==> r[i] == IdLine(id)) &&
            (forall i :: 0 <= i < |lines| && StartsWith(lines[i], SecretKey) ==> r[i] == SecretLine(secret)) &&
            (forall i :: 0 <= i < |lines| && !StartsWith(lines[i], IdKey) && !StartsWith(lines[i], SecretKey) ==>
               r[i] == lines[i] || (i == |lines| - 1 && r[i] == lines[i] + "\n")) &&
            (forall i :: 0 <= i < |Missing(lines, id, secret)| ==> r[|lines| + i] == Missing(lines, id, secret)[i])
  {
    var rep := ReplaceAll(lines, id, secret);
    var r := RewriteEnv(lines, id, secret);
    if Missing(lines, id, secret) != [] {
      var t := Terminate(rep);
      TerminateKeeps(rep);
      KeyLinesTerminated(id, secret);
      assert forall i :: 0 <= i < |lines| ==> r[i] == t[i];
    }
    forall i | 0 <= i < |lines| && StartsWith(lines[i], SecretKey)
      ensures !StartsWith(lines[i], IdKey)
    {
      KeysExclusive(lines[i]);
    }
  }

  /** No line starts with both keys: they differ at their sixteenth character. */
  lemma KeysExclusive(l: string)
    ensures !(StartsWith(l, IdKey) && StartsWith(l, SecretKey))
  {
    assert IdKey[15] == 'I' && SecretKey[15] == 'S';
    assert StartsWith(l, IdKey) ==> l[15] == 'I';
  }

  /** Terminating changes only an unterminated last line, by adding its newline. */
  lemma TerminateKeeps(lines: seq<string>)
    ensures var t := Terminate(lines);
            (forall i :: 0 <= i < |lines| && (i < |lines| - 1 || Terminated(lines[i])) ==> t[i] == lines[i]) &&
            (|lines| > 0 ==> t[|lines| - 1] == lines[|lines| - 1] || t[|lines| - 1] == lines[|lines| - 1] + "\n")
  {
  }

  lemma KeyLinesTerminated(id: string, secret: string)
    ensures Terminated(IdLine(id)) && Terminated(SecretLine(secret))
  {
  }

  lemma RewriteEnvKeys(lines: seq<string>, id: string, secret: string)
    ensures var r := RewriteEnv(lines, id, secret);
            |r| == |lines| + (if HasKey(lines, IdKey) then 0 else 1) + (if HasKey(lines, SecretKey) then 0 else 1) &&
            (!HasKey(lines, IdKey) ==> r[|lines|] == IdLine(id)) &&
            (!HasKey(lines, SecretKey) ==> r[|r| - 1] == SecretLine(secret)) &&
            HasKey(r, IdKey) && HasKey(r, SecretKey)
  {
    var r := RewriteEnv(lines, id, secret);
    var miss := Missing(lines, id, secret);
    RewriteEnvKept(lines, id, secret);
    KeyLines(id, secret);
    if HasKey(lines, IdKey) {
      var j :| 0 <= j < |lines| && StartsWith(lines[j], IdKey);
      assert StartsWith(r[j], IdKey);
    } else {
      assert r[|lines|] == miss[0];
      assert StartsWith(r[|lines|], IdKey);
    }
    if HasKey(lines, SecretKey) {
      var j :| 0 <= j < |lines| && StartsWith(lines[j], SecretKey);
      assert StartsWith(r[j], SecretKey);
    } else {
      assert r[|r| - 1] == miss[|miss| - 1];
      assert StartsWith(r[|r| - 1], SecretKey);
    }
  }

  /** Terminating the last line keeps every line a line and leaves each one
      terminated; only the last can change, by gaining its newline. */
  lemma TerminateSpec(lines: seq<string>)
    requires forall i :: 0 <= i < |lines| ==> IsLine(lines[i])
    requires forall i :: 0 <= i < |lines| - 1 ==> Terminated(lines[i])
    ensures var t := Terminate(lines);
            (forall i :: 0 <= i < |t| ==> IsLine(t[i]) && Terminated(t[i])) &&
            (forall i :: 0 <= i < |lines| - 1 ==> t[i] == lines[i]) &&
            (|lines| > 0 ==> t[|lines| - 1] == lines[|lines| - 1] ||
                             t[|lines| - 1] == lines[|lines| - 1] + "\n")
  {
  }

  /** A concrete instance of the as-written behaviour: a one-line file `FOO=1`
      without a newline. Read back, the file has two lines and none starts with the
      id key, while the corrected rewrite reads back with both keys at line starts. */
  lemma AsWrittenLosesIdExample()
    ensures var lines := ["FOO=1"];
            var r := RewriteAsWritten(lines, "a", "b");
            WellFormed(lines) &&
            ReadLines(Join(r)) == ["FOO=1" + IdLine("a"), SecretLine("b")] &&
            !HasKey(ReadLines(Join(r)), IdKey) &&
            HasKey(ReadLines(Join(RewriteEnv(lines, "a", "b"))), IdKey)
  {
    ExampleFile();
    ExampleAsWritten();
    ExampleCorrected();
  }

  /** The one-line file is well formed, unterminated and holds no key line. */
  lemma ExampleFile()
    ensures WellFormed(["FOO=1"]) && !Terminated("FOO=1")
    ensures !HasKey(["FOO=1"], IdKey) && !HasKey(["FOO=1"], SecretKey) && !StartsWith("FOO=1", SecretKey)
  {
    var lines := ["FOO=1"];
    assert !StartsWith(lines[0], IdKey) && !StartsWith(lines[0], SecretKey);
  }

  lemma ExampleAsWritten()
    ensures var back := ReadLines(Join(RewriteAsWritten(["FOO=1"], "a", "b")));
            back == ["FOO=1" + IdLine("a"), SecretLine("b")] && !HasKey(back, IdKey)
  {
    ExampleReadBack();
    var back := ["FOO=1" + IdLine("a"), SecretLine("b")];
    assert !StartsWith(back[0], IdKey) by { assert back[0][0] == 'F'; }
    assert !StartsWith(back[1], IdKey) by { KeyLines("a", "b"); }
  }

  lemma ExampleReadBack()
    ensures ReadLines(Join(RewriteAsWritten(["FOO=1"], "a", "b"))) == ["FOO=1" + IdLine("a"), SecretLine("b")]
  {
    ExampleFile();
    AsWrittenMergesLastLine(["FOO=1"], "a", "b");
    ExampleMerged();
  }

  lemma ExampleMerged()
    ensures Merged(["FOO=1"], "a", "b") == ["FOO=1" + IdLine("a"), SecretLine("b")]
  {
    ExampleFile();
    assert ReplaceAll(["FOO=1"], "a", "b")[..0] == [];
  }

  lemma ExampleCorrected()
    ensures HasKey(ReadLines(Join(RewriteEnv(["FOO=1"], "a", "b"))), IdKey)
  {
    var lines := ["FOO=1"];
    ExampleFile();
    RewriteEnvReadsBack(lines, "a", "b");
    RewriteEnvKeys(lines, "a", "b");
  }
}
