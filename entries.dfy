/**
 * The "parse each line, keep the ones that yield a key, later lines
 * overwrite earlier ones" dictionary fill shared by the Redis INFO parser
 * and the `.env` reader: `lines.forEach(line => { if (...) obj[key] = value })`.
 */
module Entries {
  import opened Wrappers

  /** The dictionary filled by visiting `lines` in order, writing
      `m[key] := value` for every line that `parse` accepts. */
  function Collect(lines: seq<string>, parse: string -> Option<(string, string)>): map<string, string>
  {
    if |lines| == 0 then map[]
    else
      var m := Collect(lines[..|lines| - 1], parse);
      match parse(lines[|lines| - 1])
      case None => m
      case Some(kv) => m[kv.0 := kv.1]
  }

  /** Line `i` is accepted and writes key `k`. */
  ghost predicate Defines(lines: seq<string>, parse: string -> Option<(string, string)>, i: int, k: string)
  {
    0 <= i < |lines| && parse(lines[i]).Some? && parse(lines[i]).value.0 == k
  }

  /** A key is present exactly when some accepted line writes it. */
  lemma {:induction false} CollectKeys(lines: seq<string>, parse: string -> Option<(string, string)>, k: string)
    ensures k in Collect(lines, parse) <==> exists i :: Defines(lines, parse, i, k)
    decreases |lines|
  {
    if |lines| > 0 {
      var init := lines[..|lines| - 1];
      var last := lines[|lines| - 1];
      CollectKeys(init, parse, k);
      var m := Collect(init, parse);
      assert Collect(lines, parse) == if parse(last).Some? then m[parse(last).value.0 := parse(last).value.1] else m;
      if exists i :: Defines(init, parse, i, k) {
        var i :| Defines(init, parse, i, k);
        assert init[i] == lines[i];
        assert Defines(lines, parse, i, k);
      }
      if parse(last).Some? && parse(last).value.0 == k {
        assert Defines(lines, parse, |lines| - 1, k);
      }
      if exists i :: Defines(lines, parse, i, k) {
        var i :| Defines(lines, parse, i, k);
        if i < |lines| - 1 {
          assert init[i] == lines[i];
          assert Defines(init, parse, i, k);
        }
      }
    }
  }

  /** The value kept for a key is the one written by the last line that writes it. */
  lemma {:induction false} CollectLastWins(lines: seq<string>, parse: string -> Option<(string, string)>, i: int)
    requires 0 <= i < |lines| && parse(lines[i]).Some?
    requires forall j :: i < j < |lines| ==> !Defines(lines, parse, j, parse(lines[i]).value.0)
    ensures parse(lines[i]).value.0 in Collect(lines, parse)
    ensures Collect(lines, parse)[parse(lines[i]).value.0] == parse(lines[i]).value.1
    decreases |lines|
  {
    var init := lines[..|lines| - 1];
    if i < |lines| - 1 {
      forall j | i < j < |init|
        ensures !Defines(init, parse, j, parse(init[i]).value.0)
      {
        assert !Defines(lines, parse, j, parse(lines[i]).value.0);
      }
      CollectLastWins(init, parse, i);
      assert !Defines(lines, parse, |lines| - 1, parse(lines[i]).value.0);
    }
  }

  /** Appending one line extends the dictionary the way one loop step does. */
  lemma CollectSnoc(lines: seq<string>, parse: string -> Option<(string, string)>, line: string)
    ensures Collect(lines + [line], parse) ==
      match parse(line)
      case None => Collect(lines, parse)
      case Some(kv) => Collect(lines, parse)[kv.0 := kv.1]
  {
    assert (lines + [line])[..|lines|] == lines;
  }

  /** One more line of a prefix of `lines`. */
  lemma CollectPrefixStep(lines: seq<string>, parse: string -> Option<(string, string)>, i: int)
    requires 0 <= i < |lines|
    ensures Collect(lines[..i + 1], parse) ==
      match parse(lines[i])
      case None => Collect(lines[..i], parse)
      case Some(kv) => Collect(lines[..i], parse)[kv.0 := kv.1]
  {
    var prefix := lines[..i];
    assert lines[..i + 1] == prefix + [lines[i]];
    CollectSnoc(prefix, parse, lines[i]);
  }
}
