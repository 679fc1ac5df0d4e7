/** How a client's stream key is mapped to the session it belongs to (app.py `get_session_id`).
    A key has the shape `<session id>_<tag>`; the id is everything before the last separator. */
module SessionKey {

  /** The separator between a session id and the per-chunk tag of a stream key. */
  const Sep: char := '_'

  /** `s` cut at every `Sep`, as Python's `s.split('_')`: the pieces between
      separators, in order, never an empty list (`""` splits into `[""]`). */
  function Split(s: string): (parts: seq<string>)
    ensures |parts| >= 1
    ensures forall i :: 0 <= i < |parts| ==> Sep !in parts[i]
    decreases |s|
  {
    if |s| == 0 then [""]
    else
      var rest := Split(s[1..]);
      if s[0] == Sep then [""] + rest
      else [[s[0]] + rest[0]] + rest[1..]
  }

  /** The pieces with one `Sep` between neighbours, as Python's `'_'.join(parts)`. */
  function Join(parts: seq<string>): string
  {
    if |parts| == 0 then ""
    else if |parts| == 1 then parts[0]
    else parts[0] + [Sep] + Join(parts[1..])
  }

  /** The session a stream key belongs to: when splitting gives two or more
      pieces, all but the last joined back together; otherwise the key itself.
      So a key without separator is its own id, and otherwise the id is the
      part of the key before a separator that no other separator follows. */
  function SessionId(key: string): (id: string)
    ensures Sep !in key ==> id == key
    ensures Sep in key ==> id + [Sep] <= key && Sep !in key[|id| + 1..]
  {
    var parts := Split(key);
    JoinSplit(key);
    if |parts| >= 2 then
      JoinSnoc(parts);
      var id := Join(parts[..|parts| - 1]);
      assert key == id + [Sep] + parts[|parts| - 1];
      assert key[|id| + 1..] == parts[|parts| - 1];
      id
    else
      key
  }

  /** The last piece of a join of two or more pieces follows the last separator. */
  lemma {:induction false} JoinSnoc(parts: seq<string>)
    requires |parts| >= 2
    ensures Join(parts) == Join(parts[..|parts| - 1]) + [Sep] + parts[|parts| - 1]
    decreases |parts|
  {
    if |parts| > 2 {
      var init := parts[..|parts| - 1];
      JoinSnoc(parts[1..]);
      assert parts[1..][..|parts| - 2] == init[1..];
      assert Join(init) == init[0] + [Sep] + Join(init[1..]);
    }
  }

  /** Position of the last separator of `s`. */
  function LastSep(s: string): (i: nat)
    requires Sep in s
    ensures i < |s| && s[i] == Sep
    ensures Sep !in s[i + 1..]
  {
    if s[|s| - 1] == Sep then |s| - 1
    else
      var init := s[..|s| - 1];
      assert s == init + [s[|s| - 1]];
      var j := LastSep(init);
      assert s[j + 1..] == init[j + 1..] + [s[|s| - 1]];
      j
  }

  /** Reference definition of the session id, stated without splitting:
      the key cut just before its last separator, or the whole key when it has none. */
  function StripLastSegment(key: string): string
  {
    if Sep in key then key[..LastSep(key)] else key
  }

  /** A piece without separators does not split. */
  lemma {:induction false} SplitWithoutSep(a: string)
    requires Sep !in a
    ensures Split(a) == [a]
    decreases |a|
  {
    if |a| > 0 {
      assert Sep !in a[1..];
      SplitWithoutSep(a[1..]);
      assert [a[0]] + a[1..] == a;
    }
  }

  /** Appending a separator and a separator-free tag appends exactly one piece. */
  lemma {:induction false} SplitAppendTag(s: string, t: string)
    requires Sep !in t
    ensures Split(s + [Sep] + t) == Split(s) + [t]
    decreases |s|
  {
    var u := s + [Sep] + t;
    if |s| == 0 {
      assert u == [Sep] + t;
      assert u[1..] == t;
      SplitWithoutSep(t);
    } else {
      assert u[0] == s[0];
      assert u[1..] == s[1..] + [Sep] + t;
      SplitAppendTag(s[1..], t);
      var rest := Split(s[1..]);
      if s[0] != Sep {
        assert (rest + [t])[0] == rest[0];
        assert (rest + [t])[1..] == rest[1..] + [t];
      }
    }
  }

  /** Joining the pieces of a split gives back the original string. */
  lemma {:induction false} JoinSplit(s: string)
    ensures Join(Split(s)) == s
    decreases |s|
  {
    if |s| > 0 {
      var rest := Split(s[1..]);
      JoinSplit(s[1..]);
      var parts := Split(s);
      if s[0] == Sep {
        assert parts[1..] == rest;
        assert s == [Sep] + s[1..];
      } else if |rest| == 1 {
        assert s == [s[0]] + s[1..];
      } else {
        assert parts[1..] == rest[1..];
        assert Join(rest) == rest[0] + [Sep] + Join(rest[1..]);
        assert s == [s[0]] + s[1..];
      }
    }
  }

  /** A separator-free piece followed by a separator contributes exactly one leading piece. */
  lemma {:induction false} SplitPrependPiece(a: string, b: string)
    requires Sep !in a
    ensures Split(a + [Sep] + b) == [a] + Split(b)
    decreases |a|
  {
    var u := a + [Sep] + b;
    if |a| == 0 {
      assert u == [Sep] + b;
      assert u[1..] == b;
    } else {
      assert u[0] == a[0];
      assert u[1..] == a[1..] + [Sep] + b;
      assert Sep !in a[1..];
      SplitPrependPiece(a[1..], b);
      assert [a[0]] + a[1..] == a;
    }
  }

  /** Splitting a join of separator-free pieces gives back the pieces. */
  lemma {:induction false} SplitJoin(parts: seq<string>)
    requires |parts| >= 1
    requires forall i :: 0 <= i < |parts| ==> Sep !in parts[i]
    ensures Split(Join(parts)) == parts
    decreases |parts|
  {
    if |parts| == 1 {
      SplitWithoutSep(parts[0]);
    } else {
      SplitJoin(parts[1..]);
      SplitPrependPiece(parts[0], Join(parts[1..]));
      assert [parts[0]] + parts[1..] == parts;
    }
  }

  /** The session id of `<s>_<t>`, with `t` free of separators, is `s`, even when `s` itself contains separators. */
  lemma SessionIdOfTagged(s: string, t: string)
    requires Sep !in t
    ensures SessionId(s + [Sep] + t) == s
  {
    SplitAppendTag(s, t);
    var parts := Split(s) + [t];
    assert parts[..|parts| - 1] == Split(s);
    JoinSplit(s);
  }

  /** A key without a separator is its own session id. */
  lemma SessionIdWithoutSep(key: string)
    requires Sep !in key
    ensures SessionId(key) == key
  {
    SplitWithoutSep(key);
  }

  /** The split-and-join definition agrees with the reference on every key. */
  lemma SessionIdStripsLastSegment(key: string)
    ensures SessionId(key) == StripLastSegment(key)
  {
    if Sep in key {
      var i := LastSep(key);
      assert key == key[..i] + [Sep] + key[i + 1..];
      SessionIdOfTagged(key[..i], key[i + 1..]);
    } else {
      SessionIdWithoutSep(key);
    }
  }

  /** The boundary cases: an empty tag, an empty id, a multi-part id, no separator. */
  lemma SessionIdExamples()
    ensures SessionId("a_") == "a"
    ensures SessionId("_x") == ""
    ensures SessionId("a_b_c") == "a_b"
    ensures SessionId("room1") == "room1"
  {
    SessionIdOfTagged("a", "");
    assert "a" + [Sep] + "" == "a_";
    SessionIdOfTagged("", "x");
    assert "" + [Sep] + "x" == "_x";
    SessionIdOfTagged("a_b", "c");
    assert "a_b" + [Sep] + "c" == "a_b_c";
    SessionIdWithoutSep("room1");
  }
}
