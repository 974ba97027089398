/**
 * `loadEnv` of the connection test script (test-connection.js): the text of
 * the `.env` file, split into lines, becomes a map from keys to values. The
 * file read is a parameter: `None` stands for a read that failed.
 */
module EnvLoader {
  import opened Types
  import opened JsText

  /** No white space at either end, as `trim()` leaves a string. */
  predicate Trimmed(t: string)
  {
    t == "" || (!IsJsSpace(t[0]) && !IsJsSpace(t[|t| - 1]))
  }

  /**
   * What one line contributes: `const [key, value] = line.split('=')`, kept
   * only when both pieces are non-empty, and then trimmed. Stated without
   * `split`: the key is the text before the first `=`, the value the text
   * from there up to the next `=` or the end of the line.
   */
  function Entry(line: string): (e: Option<(string, string)>)
    ensures var k := IndexOf(line, '=');
      e.Some? <==> 0 < k && k + 1 < |line| && line[k + 1] != '='
    ensures e.Some? ==>
      var k := IndexOf(line, '=');
      var rest := line[k + 1..];
      e.value == (Trim(line[..k]), Trim(rest[..IndexOf(rest, '=')]))
  {
    var parts := Split(line, '=');
    SplitPieces(line);
    if parts[0] != "" && |parts| >= 2 && parts[1] != "" then Some((Trim(parts[0]), Trim(parts[1]))) else None
  }

  /** The first two pieces of `line.split('=')`, read off the positions of the first two `=`. */
  lemma SplitPieces(line: string)
    ensures var k := IndexOf(line, '=');
      && Split(line, '=')[0] == line[..k]
      && (k == |line| <==> |Split(line, '=')| == 1)
      && (k < |line| ==>
            var rest := line[k + 1..];
            Split(line, '=')[1] == rest[..IndexOf(rest, '=')])
  {
    var k := IndexOf(line, '=');
    if k < |line| {
      var rest := line[k + 1..];
      assert Split(line, '=') == [line[..k]] + Split(rest, '=');
      assert Split(rest, '=')[0] == rest[..IndexOf(rest, '=')];
    }
  }

  /** The map the entries build in order: each present entry sets its key, a later one overriding an earlier one. */
  function Assign(entries: seq<Option<(string, string)>>): (env: map<string, string>)
    decreases |entries|
  {
    if |entries| == 0 then map[]
    else AssignStep(Assign(entries[..|entries| - 1]), entries[|entries| - 1])
  }

  /** One entry applied to the map: a present entry sets its key. */
  function AssignStep(env: map<string, string>, e: Option<(string, string)>): map<string, string>
  {
    if e.Some? then env[e.value.0 := e.value.1] else env
  }

  /** The entry of every line, in order. */
  function Entries(lines: seq<string>): (entries: seq<Option<(string, string)>>)
    ensures |entries| == |lines|
    ensures forall i | 0 <= i < |lines| :: entries[i] == Entry(lines[i])
  {
    seq(|lines|, i requires 0 <= i < |lines| => Entry(lines[i]))
  }

  /** The map built from the lines of the file. */
  function EnvOf(lines: seq<string>): map<string, string>
  {
    Assign(Entries(lines))
  }

  /** `loadEnv()`: the map of the file's lines, or an empty map when the file cannot be read. */
  method LoadEnv(data: Option<string>) returns (env: map<string, string>)
    ensures data.None? ==> env == map[]
    ensures data.Some? ==> env == EnvOf(Split(data.value, '\n'))
  {
    env := map[];
    if data.None? {
      return;
    }
    var lines := Split(data.value, '\n');
    ghost var entries := Entries(lines);
    var i := 0;
    while i < |lines|
      invariant 0 <= i <= |lines|
      invariant env == Assign(entries[..i])
    {
      var parts := Split(lines[i], '=');
      assert entries[..i + 1][..i] == entries[..i];
      assert Assign(entries[..i + 1]) == AssignStep(Assign(entries[..i]), Entry(lines[i]));
      if parts[0] != "" && |parts| >= 2 && parts[1] != "" {
        env := env[Trim(parts[0]) := Trim(parts[1])];
      }
      i := i + 1;
    }
    assert entries[..i] == entries;
  }

  // ---------------------------------------------------------------- properties

  /** Entry `e` is present and sets `key`. */
  predicate SetsKey(e: Option<(string, string)>, key: string)
  {
    e.Some? && e.value.0 == key
  }

  /** A key is in the map exactly when some entry sets it. */
  lemma {:induction false} AssignKeys(entries: seq<Option<(string, string)>>, key: string)
    ensures key in Assign(entries) <==> exists i | 0 <= i < |entries| :: SetsKey(entries[i], key)
    decreases |entries|
  {
    if |entries| > 0 {
      var init := entries[..|entries| - 1];
      AssignKeys(init, key);
      if key in Assign(init) {
        var i :| 0 <= i < |init| && SetsKey(init[i], key);
        assert entries[i] == init[i];
      }
      if exists i | 0 <= i < |entries| :: SetsKey(entries[i], key) {
        var i :| 0 <= i < |entries| && SetsKey(entries[i], key);
        if i < |init| {
          assert entries[i] == init[i];
        }
      }
    }
  }

  /** Every binding of the map is one of the entries. */
  lemma {:induction false} AssignFromEntry(entries: seq<Option<(string, string)>>, key: string)
    requires key in Assign(entries)
    ensures exists i | 0 <= i < |entries| :: entries[i] == Some((key, Assign(entries)[key]))
    decreases |entries|
  {
    var init := entries[..|entries| - 1];
    var last := entries[|entries| - 1];
    if last.Some? && last.value.0 == key {
      assert entries[|entries| - 1] == Some((key, Assign(entries)[key]));
    } else {
      AssignFromEntry(init, key);
      var i :| 0 <= i < |init| && init[i] == Some((key, Assign(init)[key]));
      assert entries[i] == init[i];
    }
  }

  /** The value stored for a key is the one of the last entry that sets that key. */
  lemma {:induction false} AssignLastWins(entries: seq<Option<(string, string)>>, i: nat, key: string, value: string)
    requires i < |entries| && entries[i] == Some((key, value))
    requires forall j | i < j < |entries| :: !SetsKey(entries[j], key)
    ensures key in Assign(entries) && Assign(entries)[key] == value
    decreases |entries|
  {
    var init := entries[..|entries| - 1];
    if i < |entries| - 1 {
      assert init[i] == entries[i];
      forall j | i < j < |init|
        ensures !SetsKey(init[j], key)
      {
        assert init[j] == entries[j];
      }
      AssignLastWins(init, i, key, value);
    }
  }

  /** A key is in the map built from the lines exactly when some line holds an entry for it. */
  lemma EnvKeys(lines: seq<string>, key: string)
    ensures key in EnvOf(lines) <==> exists i | 0 <= i < |lines| :: SetsKey(Entry(lines[i]), key)
  {
    AssignKeys(Entries(lines), key);
  }

  /** Later lines with the same key overwrite earlier ones: the last line that sets a key gives its value. */
  lemma LastLineWins(lines: seq<string>, i: nat, key: string, value: string)
    requires i < |lines| && Entry(lines[i]) == Some((key, value))
    requires forall j | i < j < |lines| :: !SetsKey(Entry(lines[j]), key)
    ensures key in EnvOf(lines) && EnvOf(lines)[key] == value
  {
    AssignLastWins(Entries(lines), i, key, value);
  }

  /** Every stored key and value is trimmed, and they are the trimmed pieces of one line. */
  lemma EnvTrimmed(lines: seq<string>, key: string)
    requires key in EnvOf(lines)
    ensures Trimmed(key) && Trimmed(EnvOf(lines)[key])
    ensures exists i | 0 <= i < |lines| :: Entry(lines[i]) == Some((key, EnvOf(lines)[key]))
  {
    AssignFromEntry(Entries(lines), key);
    var i :| 0 <= i < |lines| && Entries(lines)[i] == Some((key, EnvOf(lines)[key]));
    assert Entry(lines[i]) == Some((key, EnvOf(lines)[key]));
  }

  /** Text after a second `=` is dropped: only the piece between the first and the second `=` is the value. */
  lemma SecondEqualsDropsRest(key: string, value: string, extra: string)
    requires '=' !in key && '=' !in value
    ensures Entry(key + "=" + value + "=" + extra) == Entry(key + "=" + value)
  {
    var long := key + "=" + value + "=" + extra;
    var short := key + "=" + value;
    IndexOfFirst(long, key);
    IndexOfFirst(short, key);
    var restLong := long[|key| + 1..];
    var restShort := short[|key| + 1..];
    assert restLong == value + "=" + extra;
    assert restShort == value;
    IndexOfFirst(restLong, value);
    IndexOfFirst(restShort, value);
    assert restLong[..|value|] == restShort[..IndexOf(restShort, '=')];
  }

  /** The first `=` of `s` follows its prefix `p` when `p` holds none. */
  lemma {:induction false} IndexOfFirst(s: string, p: string)
    requires |p| <= |s| && s[..|p|] == p && '=' !in p
    requires |p| < |s| ==> s[|p|] == '='
    ensures IndexOf(s, '=') == |p|
    decreases |p|
  {
    if |p| > 0 {
      assert s[0] == p[0];
      IndexOfFirst(s[1..], p[1..]);
    }
  }

  /**
   * The test before trimming is on the raw pieces: a line whose key piece and
   * value piece are non-empty is kept, and a piece stored as the empty string
   * is exactly one made of white space.
   */
  lemma BlankPiecesKeptEmpty(line: string)
    requires var k := IndexOf(line, '=');
      0 < k && k + 1 < |line| && line[k + 1] != '='
    ensures Entry(line).Some?
    ensures var k := IndexOf(line, '=');
      var rest := line[k + 1..];
      var v := rest[..IndexOf(rest, '=')];
      && (Entry(line).value.0 == "" <==> forall j | 0 <= j < k :: IsJsSpace(line[j]))
      && (Entry(line).value.1 == "" <==> forall j | 0 <= j < |v| :: IsJsSpace(v[j]))
  {
    var k := IndexOf(line, '=');
    var rest := line[k + 1..];
    var v := rest[..IndexOf(rest, '=')];
    var e := Entry(line);
    assert e.value == (Trim(line[..k]), Trim(v));
    BlankIffTrimmedEmpty(line[..k]);
    BlankIffTrimmedEmpty(v);
    assert (forall j | 0 <= j < k :: IsJsSpace(line[..k][j])) <==> (forall j | 0 <= j < k :: IsJsSpace(line[j]));
  }

  /** `trim()` gives the empty string exactly on white space. */
  lemma BlankIffTrimmedEmpty(t: string)
    ensures Trim(t) == "" <==> forall j | 0 <= j < |t| :: IsJsSpace(t[j])
  {
  }

  /** For instance, a value of white space only is kept, as the empty string. */
  lemma BlankValueKeptEmpty()
    ensures Entry("KEY= \r") == Some(("KEY", ""))
  {
    var line := "KEY= \r";
    IndexOfFirst(line, "KEY");
    var rest := line[4..];
    assert rest == " \r";
    IndexOfFirst(rest, " \r");
    assert Trim(line[..3]) == "KEY" by {
      assert line[..3] == "KEY";
      assert LeadingSpace("KEY") == 0;
      assert TrailingSpace("KEY") == 0;
    }
  }
}
