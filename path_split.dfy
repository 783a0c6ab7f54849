/** splitPath: cuts a URL path at every '/' and keeps the non-empty pieces.
    The path is a sequence of characters; because '/' is a single byte in
    UTF-8, cutting at characters and cutting at byte offsets agree. */
module PathSplit {

  /** The segments of `rest`, given that `current` is the segment collected
      so far (the characters since the last '/'). This is the reference
      definition the loop is proved against. */
  function SegmentsFrom(rest: string, current: string): seq<string>
    decreases |rest|
  {
    if rest == [] then
      (if current == [] then [] else [current])
    else if rest[0] == '/' then
      (if current == [] then [] else [current]) + SegmentsFrom(rest[1..], [])
    else
      SegmentsFrom(rest[1..], current + [rest[0]])
  }

  function Segments(path: string): seq<string> {
    SegmentsFrom(path, [])
  }

  /** The concatenation of a list of strings. */
  function Concat(parts: seq<string>): string {
    if parts == [] then [] else parts[0] + Concat(parts[1..])
  }

  /** `s` with every '/' removed. */
  function WithoutSlashes(s: string): string {
    if s == [] then []
    else (if s[0] == '/' then [] else [s[0]]) + WithoutSlashes(s[1..])
  }

  method SplitPath(path: string) returns (parts: seq<string>)
    ensures parts == Segments(path)
  {
    // The source first walks a literal list of two empty strings and keeps
    // the non-empty ones, which adds nothing: `parts` starts out empty.
    parts := [];
    var start := 0;
    for i := 0 to |path|
      invariant start <= i
      invariant parts + SegmentsFrom(path[i..], path[start..i]) == Segments(path)
    {
      assert path[i..][1..] == path[i + 1..];
      if path[i] == '/' {
        if i > start {
          parts := parts + [path[start..i]];
        }
        start := i + 1;
      } else {
        assert path[start..i] + [path[i]] == path[start..i + 1];
      }
    }
    assert path[|path|..] == [] && path[start..|path|] == path[start..];
    if start < |path| {
      parts := parts + [path[start..]];
    }
  }

  lemma {:induction false} ConcatAppend(a: seq<string>, b: seq<string>)
    ensures Concat(a + b) == Concat(a) + Concat(b)
  {
    if a == [] {
      assert a + b == b;
    } else {
      assert (a + b)[0] == a[0] && (a + b)[1..] == a[1..] + b;
      ConcatAppend(a[1..], b);
    }
  }

  /** No segment is empty and no segment contains '/', provided the pending
      segment does not. */
  lemma {:induction false} SegmentsFromWellFormed(rest: string, current: string)
    requires '/' !in current
    ensures forall s | s in SegmentsFrom(rest, current) :: s != [] && '/' !in s
  {
    if rest != [] {
      if rest[0] == '/' {
        SegmentsFromWellFormed(rest[1..], []);
      } else {
        SegmentsFromWellFormed(rest[1..], current + [rest[0]]);
      }
    }
  }

  /** Nothing but the separators is lost: the segments, joined, give the
      pending segment followed by the rest without its '/' characters. */
  lemma {:induction false} SegmentsFromConcat(rest: string, current: string)
    ensures Concat(SegmentsFrom(rest, current)) == current + WithoutSlashes(rest)
  {
    if rest == [] {
      if current != [] {
        assert Concat([current]) == current + Concat([]);
      }
    } else if rest[0] == '/' {
      SegmentsFromConcat(rest[1..], []);
      var head := if current == [] then [] else [current];
      ConcatAppend(head, SegmentsFrom(rest[1..], []));
      if current != [] {
        assert Concat([current]) == current + Concat([]);
      }
    } else {
      SegmentsFromConcat(rest[1..], current + [rest[0]]);
    }
  }

  /** The segments of a path are non-empty, free of '/', and together they
      spell the path with its separators removed. */
  lemma SegmentsSpec(path: string)
    ensures forall s | s in Segments(path) :: s != [] && '/' !in s
    ensures Concat(Segments(path)) == WithoutSlashes(path)
  {
    SegmentsFromWellFormed(path, []);
    SegmentsFromConcat(path, []);
  }

  /** A run of characters other than '/' extends the pending segment. */
  lemma {:induction false} SegmentsFromWord(word: string, rest: string, current: string)
    requires '/' !in word
    ensures SegmentsFrom(word + rest, current) == SegmentsFrom(rest, current + word)
    decreases |word|
  {
    if word == [] {
      assert word + rest == rest && current + word == current;
    } else {
      assert (word + rest)[0] == word[0] && (word + rest)[1..] == word[1..] + rest;
      assert current + [word[0]] + word[1..] == current + word;
      SegmentsFromWord(word[1..], rest, current + [word[0]]);
    }
  }

  /** A '/' closes the pending segment. */
  lemma SegmentsFromSlash(rest: string, current: string)
    ensures SegmentsFrom("/" + rest, current)
      == (if current == [] then [] else [current]) + SegmentsFrom(rest, [])
  {
    assert ("/" + rest)[1..] == rest;
  }

  /** A non-empty word followed by '/' is one whole segment. */
  lemma WordThenSlash(word: string, rest: string)
    requires word != [] && '/' !in word
    ensures SegmentsFrom(word + "/" + rest, []) == [word] + SegmentsFrom(rest, [])
  {
    var empty: string := [];
    assert word + "/" + rest == word + ("/" + rest);
    assert empty + word == word;
    SegmentsFromWord(word, "/" + rest, empty);
    SegmentsFromSlash(rest, word);
  }

  /** A non-empty word at the end of the path is the last segment. */
  lemma LastWord(word: string)
    requires word != [] && '/' !in word
    ensures SegmentsFrom(word, []) == [word]
  {
    var empty: string := [];
    assert word + empty == word && empty + word == word;
    SegmentsFromWord(word, empty, empty);
  }

  /** A path of four words, each after a '/', splits into those words. */
  lemma FourSegments(a: string, b: string, c: string, d: string)
    requires a != [] && b != [] && c != [] && d != []
    requires '/' !in a && '/' !in b && '/' !in c && '/' !in d
    ensures Segments("/" + a + "/" + b + "/" + c + "/" + d) == [a, b, c, d]
  {
    var tail := c + "/" + d;
    var middle := b + "/" + tail;
    var whole := a + "/" + middle;
    assert "/" + a + "/" + b + "/" + c + "/" + d == "/" + whole;
    SegmentsFromSlash(whole, []);
    WordThenSlash(a, middle);
    WordThenSlash(b, tail);
    WordThenSlash(c, d);
    LastWord(d);
  }

  /** The route the user handlers split. */
  lemma SegmentsOfUserRoute()
    ensures Segments("/api/v1/users/5") == ["api", "v1", "users", "5"]
  {
    FourSegments("api", "v1", "users", "5");
    assert "/" + "api" + "/" + "v1" + "/" + "users" + "/" + "5" == "/api/v1/users/5";
  }
}
