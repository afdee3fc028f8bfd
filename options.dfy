// The `key=value` configuration reader shared by `BonchAPI.read_options` and
// `SendMsgAPI.__init__`: one loop over the lines of the configuration text.

module Options {
  import opened Text

  /** The options dict: Python's insertion order plays no part in reading it back. */
  type Config = map<string, string>

  /** The text of a line before its first `#`, trimmed. */
  function Clean(line: string): string {
    Strip(Split(line, '#')[0])
  }

  /** What one line contributes: nothing when its clean text is empty or has no `=`;
      otherwise the trimmed text before the first `=` as key and the trimmed rest as value. */
  function LineEntry(line: string): Option<(string, string)> {
    var clean := Clean(line);
    if clean == [] || '=' !in clean then None
    else Some((Strip(Split(clean, '=')[0]), Strip(AfterFirst(clean, '='))))
  }

  /** The entry sets key `k`. */
  predicate Sets(e: Option<(string, string)>, k: string) {
    e.Some? && e.value.0 == k
  }

  /** The line sets key `k`. */
  predicate Defines(line: string, k: string) {
    Sets(LineEntry(line), k)
  }

  /** What each line contributes, line by line. */
  function Entries(lines: seq<string>): (es: seq<Option<(string, string)>>)
    ensures |es| == |lines|
  {
    seq(|lines|, i requires 0 <= i < |lines| => LineEntry(lines[i]))
  }

  /** The dict after storing the entries in order: `options[key] = value` for each. */
  function Store(es: seq<Option<(string, string)>>): Config
    decreases |es|
  {
    if es == [] then map[]
    else
      var m := Store(es[..|es| - 1]);
      match es[|es| - 1]
      case None => m
      case Some(kv) => m[kv.0 := kv.1]
  }

  /** The dict after reading `lines` in order. */
  function Collect(lines: seq<string>): Config {
    Store(Entries(lines))
  }

  /** `options.get(k, d)`. */
  function Get(m: Config, k: string, d: string): string {
    if k in m then m[k] else d
  }

  /** The reading loop. */
  method ReadLines(lines: seq<string>) returns (options: Config)
    ensures options == Collect(lines)
  {
    options := map[];
    for i := 0 to |lines|
      invariant options == Store(Entries(lines)[..i])
    {
      assert Entries(lines)[..i + 1][..i] == Entries(lines)[..i];
      var cleanLine := Strip(Split(lines[i], '#')[0]);
      if cleanLine != [] && '=' in cleanLine {
        var key := Split(cleanLine, '=')[0];
        var value := AfterFirst(cleanLine, '=');
        options := options[Strip(key) := Strip(value)];
      }
    }
    assert Entries(lines)[..|lines|] == Entries(lines);
  }

  // ---------------------------------------------------------------- properties

  /** Everything from the first `#` on is ignored. */
  lemma CommentIgnored(a: string, b: string)
    requires '#' !in a
    ensures LineEntry(a + "#" + b) == LineEntry(a)
  {
    SplitAfter(a, '#', b);
    SplitWhole(a, '#');
  }

  /** A line contributes a key exactly when an `=` comes before its first `#`. */
  lemma EntryWhenEquals(line: string)
    ensures LineEntry(line).Some? <==> '=' in Split(line, '#')[0]
  {
    var pre := Split(line, '#')[0];
    StripByShape(pre, IsSpace);
    if '=' in pre {
      StripByKeeps(pre, IsSpace, '=');
    }
  }

  /** A line is split at its first `=` only: the value keeps any later `=`, and both
      halves are trimmed. */
  lemma EntryOfPair(k: string, v: string)
    requires '=' !in k && '#' !in k && '#' !in v
    ensures LineEntry(k + "=" + v) == Some((Strip(k), Strip(v)))
  {
    var line := k + "=" + v;
    assert '#' !in line;
    SplitWhole(line, '#');
    assert line == k + ['='] + v;
    var k', v' := StripMiddle(k, '=', v, IsSpace);
    var clean := k' + ['='] + v';
    assert Clean(line) == clean;
    assert '=' !in k' by {
      forall i | 0 <= i < |k'| ensures k'[i] != '=' {
        assert k'[i] == k[|k| - |k'| + i];
      }
    }
    assert '=' in clean by { assert clean[|k'|] == '='; }
    SplitAfter(k', '=', v');
    assert Split(clean, '=')[0] == k';
    var r := AfterFirst(clean, '=');
    assert clean == k' + ['='] + r;
    assert r == v' by { assert r == clean[|k'| + 1..]; }
  }

  /** No entry sets `k`. */
  ghost predicate Unset(es: seq<Option<(string, string)>>, k: string) {
    forall i :: 0 <= i < |es| ==> !Sets(es[i], k)
  }

  /** Entry `i` is the last one setting `k`. */
  predicate LastSets(es: seq<Option<(string, string)>>, k: string, i: int) {
    0 <= i < |es| && Sets(es[i], k) && forall j :: i < j < |es| ==> !Sets(es[j], k)
  }

  lemma {:induction false} StoreLookup(es: seq<Option<(string, string)>>, k: string)
    ensures k in Store(es) <==> !Unset(es, k)
    ensures forall i :: LastSets(es, k, i) ==> Store(es)[k] == es[i].value.1
    decreases |es|
  {
    if es != [] {
      var n := |es| - 1;
      var p := es[..n];
      StoreLookup(p, k);
      assert forall i :: 0 <= i < n ==> p[i] == es[i];
      if Sets(es[n], k) {
        assert !Unset(es, k);
        forall i | LastSets(es, k, i) ensures Store(es)[k] == es[i].value.1 {
          assert i == n;
        }
      } else {
        assert Unset(es, k) <==> Unset(p, k);
        forall i | LastSets(es, k, i) ensures Store(es)[k] == es[i].value.1 {
          assert i < n && LastSets(p, k, i);
        }
      }
    }
  }

  /** A key is present exactly when some line sets it, and it then holds the value of the
      last line setting it: a later line overwrites an earlier one. */
  lemma CollectLookup(lines: seq<string>, k: string)
    ensures k in Collect(lines) <==> exists i :: 0 <= i < |lines| && Defines(lines[i], k)
    ensures forall i :: LastSets(Entries(lines), k, i) ==>
              Collect(lines)[k] == LineEntry(lines[i]).value.1
  {
    StoreLookup(Entries(lines), k);
    assert forall i :: 0 <= i < |lines| ==> Entries(lines)[i] == LineEntry(lines[i]);
  }
}
