/** The `.env` reader of the database check script (scripts/verify_db.js):
    every line of the form `key=value` is stored in a table of settings. */
module VerifyDb {
  import opened Wrappers
  import opened Strings

  /** `const [key, value] = line.split('=')`: the first two fields, the
      second `None` (undefined) when the line has no '='. */
  function Fields(line: string): (string, Option<string>) {
    var parts := Split(line, '=');
    (parts[0], if |parts| >= 2 then Some(parts[1]) else None)
  }

  /** The setting a line contributes: only when both fields are non-empty
      (before trimming), then both trimmed. */
  function Entry(line: string): (r: Option<(string, string)>)
    ensures r.Some? <==> Fields(line).0 != "" && Fields(line).1.Some? && Fields(line).1.value != ""
    ensures r.Some? ==> r.value == (Trim(Fields(line).0), Trim(Fields(line).1.value))
  {
    var (key, value) := Fields(line);
    if key != "" && value.Some? && value.value != "" then Some((Trim(key), Trim(value.value))) else None
  }

  /** For a key free of '=', the fields of `key=tail` are the key and the
      text of `tail` up to its first '='. */
  lemma FieldsAfterKey(key: string, tail: string)
    requires '=' !in key
    ensures Fields(key + "=" + tail) == (key, Some(Split(tail, '=')[0]))
  {
    assert key + "=" + tail == key + ['='] + tail;
    SplitAfterPiece(key, '=', tail);
  }

  /** `key=value`: both sides trimmed. */
  lemma EntryOfPair(key: string, value: string)
    requires key != "" && value != "" && '=' !in key && '=' !in value
    ensures Entry(key + "=" + value) == Some((Trim(key), Trim(value)))
  {
    FieldsAfterKey(key, value);
    SplitWithoutSeparator(value, '=');
  }

  /** The value stops at the next '='. */
  lemma EntryDropsAfterSecondEquals(key: string, value: string, rest: string)
    requires key != "" && value != "" && '=' !in key && '=' !in value
    ensures Entry(key + "=" + value + "=" + rest) == Some((Trim(key), Trim(value)))
  {
    assert key + "=" + value + "=" + rest == key + "=" + (value + "=" + rest);
    FieldsAfterKey(key, value + "=" + rest);
    assert value + "=" + rest == value + ['='] + rest;
    SplitAfterPiece(value, '=', rest);
  }

  /** A carriage return left by a CRLF line end is trimmed off the value. */
  lemma EntryDropsCarriageReturn(key: string, value: string)
    requires key != "" && value != "" && '=' !in key && '=' !in value
    ensures Entry(key + "=" + value + "\r") == Some((Trim(key), Trim(value)))
  {
    assert key + "=" + value + "\r" == key + "=" + (value + "\r");
    assert '=' !in value + "\r";
    FieldsAfterKey(key, value + "\r");
    SplitWithoutSeparator(value + "\r", '=');
    TrimDropsCarriageReturn(value);
  }

  /** A line without '=', or with an empty side, contributes nothing. */
  lemma EntryNeedsBothSides(key: string, value: string)
    requires '=' !in key
    ensures Entry(key) == None
    ensures Entry(key + "=") == None
    ensures Entry("=" + value) == None
  {
    SplitWithoutSeparator(key, '=');
    assert key + "=" == key + "=" + "";
    FieldsAfterKey(key, "");
    assert "=" + value == "" + "=" + value;
    FieldsAfterKey("", value);
  }

  /** What each line contributes, in order. */
  function Entries(lines: seq<string>): (es: seq<Option<(string, string)>>)
    ensures |es| == |lines| && forall k :: 0 <= k < |lines| ==> es[k] == Entry(lines[k])
  {
    seq(|lines|, k requires 0 <= k < |lines| => Entry(lines[k]))
  }

  /** The table after the contributions, in order: a later one overwrites an
      earlier one with the same key. */
  function Env(es: seq<Option<(string, string)>>): map<string, string>
    decreases |es|
  {
    if es == [] then map[]
    else
      var env := Env(es[..|es| - 1]);
      var e := es[|es| - 1];
      if e.Some? then env[e.value.0 := e.value.1] else env
  }

  /** Contribution `e` sets `key`. */
  predicate Sets(e: Option<(string, string)>, key: string) {
    e.Some? && e.value.0 == key
  }

  /** A key is in the table iff some line sets it. */
  lemma {:induction false} EnvKeys(es: seq<Option<(string, string)>>, key: string)
    ensures key in Env(es) <==> exists k :: 0 <= k < |es| && Sets(es[k], key)
    decreases |es|
  {
    if es != [] {
      var init := es[..|es| - 1];
      EnvKeys(init, key);
      if exists k :: 0 <= k < |es| && Sets(es[k], key) {
        var k :| 0 <= k < |es| && Sets(es[k], key);
        if k < |init| {
          assert init[k] == es[k];
        }
      }
      if exists k :: 0 <= k < |init| && Sets(init[k], key) {
        var k :| 0 <= k < |init| && Sets(init[k], key);
        assert es[k] == init[k];
      }
    }
  }

  /** The value a key holds comes from the last line that sets it. */
  lemma {:induction false} EnvLastWins(es: seq<Option<(string, string)>>, key: string)
    requires key in Env(es)
    ensures exists k :: 0 <= k < |es| && es[k] == Some((key, Env(es)[key]))
                        && forall j :: k < j < |es| ==> !Sets(es[j], key)
    decreases |es|
  {
    var init := es[..|es| - 1];
    var n := |es| - 1;
    if Sets(es[n], key) {
      assert es[n] == Some((key, Env(es)[key]));
    } else {
      assert key in Env(init) && Env(es)[key] == Env(init)[key];
      EnvLastWins(init, key);
      var k :| 0 <= k < |init| && init[k] == Some((key, Env(init)[key]))
               && forall j :: k < j < |init| ==> !Sets(init[j], key);
      assert es[k] == init[k];
      assert forall j :: k < j < n ==> es[j] == init[j];
    }
  }

  /** One more contribution: its key, when it has one, takes its value. */
  lemma EnvSnoc(es: seq<Option<(string, string)>>, i: nat)
    requires i < |es|
    ensures Env(es[..i + 1]) == if es[i].Some? then Env(es[..i])[es[i].value.0 := es[i].value.1] else Env(es[..i])
  {
    assert es[..i + 1][..i] == es[..i];
  }

  /** The script's loop: `envContent.split('\n').forEach(...)` assigning into
      the `env` object. */
  method ParseEnv(content: string) returns (env: map<string, string>)
    ensures env == Env(Entries(Split(content, '\n')))
  {
    var lines := Split(content, '\n');
    env := ParseLines(lines);
  }

  /** The `forEach` over the lines. */
  method ParseLines(lines: seq<string>) returns (env: map<string, string>)
    ensures env == Env(Entries(lines))
  {
    ghost var es := Entries(lines);
    env := map[];
    var i := 0;
    while i < |lines|
      invariant 0 <= i <= |lines| == |es|
      invariant env == Env(es[..i])
    {
      var e := Entry(lines[i]);
      assert es[i] == e;
      EnvSnoc(es, i);
      if e.Some? {
        env := env[e.value.0 := e.value.1];
      }
      i := i + 1;
    }
    assert es[..|lines|] == es;
  }
}
