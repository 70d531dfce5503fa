/**
  The text inside a page token: a timestamp and an ID joined by a double
  underscore. The base64 layer around it is not modelled.
 */
module PageToken {
  import opened Common

  const SEP: string := "__"

  /** Go's strings.Split(s, "__"): cut at every leftmost, non-overlapping separator. */
  function SplitSep(s: string): (parts: seq<string>)
    ensures |parts| >= 1
    decreases |s|
  {
    if |s| < 2 then [s]
    else if s[0] == '_' && s[1] == '_' then [""] + SplitSep(s[2..])
    else
      var rest := SplitSep(s[1..]);
      [[s[0]] + rest[0]] + rest[1..]
  }

  predicate ContainsSep(s: string) {
    exists i :: 0 <= i < |s| - 1 && s[i] == '_' && s[i + 1] == '_'
  }

  function GenerateCursor(timestamp: string, id: string): string {
    timestamp + SEP + id
  }

  /** Anything but exactly two parts is an invalid cursor. */
  function ParseCursor(decoded: string): Option<(string, string)> {
    var parts := SplitSep(decoded);
    if |parts| == 2 then Some((parts[0], parts[1])) else None
  }

  /** One part, the string itself, exactly when no separator occurs in it. */
  lemma {:induction false} SplitWhole(s: string)
    ensures ContainsSep(s) <==> |SplitSep(s)| > 1
    ensures !ContainsSep(s) ==> SplitSep(s) == [s]
    decreases |s|
  {
    if |s| < 2 {
    } else if s[0] == '_' && s[1] == '_' {
      assert ContainsSep(s);
    } else {
      SplitWhole(s[1..]);
      if ContainsSep(s) {
        var i :| 0 <= i < |s| - 1 && s[i] == '_' && s[i + 1] == '_';
        assert s[1..][i - 1] == '_' && s[1..][i - 1 + 1] == '_';
      }
      if ContainsSep(s[1..]) {
        var i :| 0 <= i < |s[1..]| - 1 && s[1..][i] == '_' && s[1..][i + 1] == '_';
        assert s[i + 1] == '_' && s[i + 1 + 1] == '_';
      }
      assert s == [s[0]] + s[1..];
    }
  }

  /** A timestamp has no underscore, so the first cut of a token is the separator itself. */
  lemma {:induction false} SplitToken(timestamp: string, id: string)
    requires '_' !in timestamp
    ensures SplitSep(GenerateCursor(timestamp, id)) == [timestamp] + SplitSep(id)
    decreases |timestamp|
  {
    var s := GenerateCursor(timestamp, id);
    if timestamp == [] {
      assert s[2..] == id;
    } else {
      SplitToken(timestamp[1..], id);
      assert s[1..] == GenerateCursor(timestamp[1..], id);
      assert s[0] == timestamp[0];
      assert timestamp == [timestamp[0]] + timestamp[1..];
    }
  }

  /** A token parses back to its timestamp and ID if and only if the ID holds no separator; otherwise it is rejected. */
  lemma TokenRoundTrip(timestamp: string, id: string)
    requires '_' !in timestamp
    ensures ParseCursor(GenerateCursor(timestamp, id)) ==
            if ContainsSep(id) then None else Some((timestamp, id))
  {
    SplitToken(timestamp, id);
    SplitWhole(id);
  }
}
