/** The logger's own rules: which level a configured name selects, and how
    a flat list of alternating keys and values becomes a field map. Output
    through logrus is outside the model. */
module Logger {
  import opened Common

  datatype Level = DebugLevel | InfoLevel | WarnLevel | ErrorLevel

  /** The level NewLogger selects for a configured name: the four known
      names select their level, anything else selects Info. */
  function LevelFor(name: string): (level: Level)
    ensures level == DebugLevel <==> name == "debug"
    ensures level == WarnLevel <==> name == "warn"
    ensures level == ErrorLevel <==> name == "error"
    ensures level == InfoLevel <==> name != "debug" && name != "warn" && name != "error"
  {
    match name
    case "debug" => DebugLevel
    case "info" => InfoLevel
    case "warn" => WarnLevel
    case "error" => ErrorLevel
    case _ => InfoLevel
  }

  type Fields = map<string, Value>

  /** The fields read from `rest`, pair by pair, on top of `acc`. A pair
      whose key is not a string is skipped, a later pair overwrites an
      earlier one, and a lone trailing element is ignored. */
  function ParsedFrom(rest: seq<Value>, acc: Fields): Fields
    decreases |rest|
  {
    if |rest| < 2 then acc
    else ParsedFrom(rest[2..], if rest[0].Str? then acc[rest[0].s := rest[1]] else acc)
  }

  function Parsed(fields: seq<Value>): Fields {
    ParsedFrom(fields, map[])
  }

  /** What remains of `fields` from index `i` on (nothing once `i` runs past
      the end). */
  function From(fields: seq<Value>, i: nat): seq<Value> {
    if i <= |fields| then fields[i..] else []
  }

  /** parseFields: walks the arguments two at a time. */
  method ParseFields(fields: seq<Value>) returns (parsed: Fields)
    ensures parsed == Parsed(fields)
  {
    parsed := map[];
    var i := 0;
    while i < |fields|
      invariant ParsedFrom(From(fields, i), parsed) == Parsed(fields)
    {
      if i + 1 < |fields| {
        assert fields[i..][2..] == fields[i + 2..];
        if fields[i].Str? {
          parsed := parsed[fields[i].s := fields[i + 1]];
        }
      }
      i := i + 2;
    }
  }

  /** Pair number `p` of `fields` exists and has the string key `k`. */
  predicate HasPair(fields: seq<Value>, p: nat, k: string) {
    2 * p + 1 < |fields| && fields[2 * p] == Str(k)
  }

  lemma HasPairShift(fields: seq<Value>, p: nat, k: string)
    requires |fields| >= 2
    ensures HasPair(fields, p + 1, k) <==> HasPair(fields[2..], p, k)
  {
    if 2 * p + 3 < |fields| {
      assert fields[2..][2 * p] == fields[2 * p + 2];
    }
  }

  /** A key is present exactly when it was already there or some complete
      pair carries it as a string key. */
  lemma {:induction false} ParsedFromKeys(rest: seq<Value>, acc: Fields, k: string)
    ensures k in ParsedFrom(rest, acc) <==> k in acc || exists p: nat :: HasPair(rest, p, k)
    decreases |rest|
  {
    if |rest| >= 2 {
      var acc' := if rest[0].Str? then acc[rest[0].s := rest[1]] else acc;
      ParsedFromKeys(rest[2..], acc', k);
      assert k in acc' <==> k in acc || HasPair(rest, 0, k);
      forall p: nat ensures HasPair(rest, p + 1, k) <==> HasPair(rest[2..], p, k) {
        HasPairShift(rest, p, k);
      }
      if exists p: nat :: HasPair(rest, p, k) {
        var p: nat :| HasPair(rest, p, k);
        if p > 0 {
          assert HasPair(rest[2..], p - 1, k);
        }
      }
      if exists p: nat :: HasPair(rest[2..], p, k) {
        var p: nat :| HasPair(rest[2..], p, k);
        assert HasPair(rest, p + 1, k);
      }
    } else {
      forall p: nat ensures !HasPair(rest, p, k) { }
    }
  }

  /** The value of a key is the value of the last pair that carries it. */
  lemma {:induction false} ParsedFromLastWins(rest: seq<Value>, acc: Fields, p: nat, k: string)
    requires HasPair(rest, p, k)
    requires forall q: nat | q > p :: !HasPair(rest, q, k)
    ensures k in ParsedFrom(rest, acc) && ParsedFrom(rest, acc)[k] == rest[2 * p + 1]
    decreases |rest|
  {
    var acc' := if rest[0].Str? then acc[rest[0].s := rest[1]] else acc;
    forall q: nat ensures HasPair(rest, q + 1, k) <==> HasPair(rest[2..], q, k) {
      HasPairShift(rest, q, k);
    }
    if p == 0 {
      ParsedFromUntouched(rest[2..], acc', k);
    } else {
      assert rest[2..][2 * (p - 1) + 1] == rest[2 * p + 1];
      ParsedFromLastWins(rest[2..], acc', p - 1, k);
    }
  }

  /** A key no pair of `rest` carries keeps its value from `acc`. */
  lemma {:induction false} ParsedFromUntouched(rest: seq<Value>, acc: Fields, k: string)
    requires forall q: nat :: !HasPair(rest, q, k)
    ensures k in acc ==> k in ParsedFrom(rest, acc) && ParsedFrom(rest, acc)[k] == acc[k]
    ensures k !in acc ==> k !in ParsedFrom(rest, acc)
    decreases |rest|
  {
    if |rest| >= 2 {
      assert !HasPair(rest, 0, k);
      forall q: nat ensures !HasPair(rest[2..], q, k) {
        HasPairShift(rest, q, k);
      }
      var acc' := if rest[0].Str? then acc[rest[0].s := rest[1]] else acc;
      ParsedFromUntouched(rest[2..], acc', k);
    }
  }

  /** Each pair adds at most one entry. */
  lemma {:induction false} ParsedFromSize(rest: seq<Value>, acc: Fields)
    ensures |ParsedFrom(rest, acc)| <= |acc| + |rest| / 2
    decreases |rest|
  {
    if |rest| >= 2 {
      var acc' := if rest[0].Str? then acc[rest[0].s := rest[1]] else acc;
      assert |acc'| <= |acc| + 1;
      ParsedFromSize(rest[2..], acc');
    }
  }

  /** An element left without a partner changes nothing. */
  lemma {:induction false} ParsedFromTrailing(rest: seq<Value>, acc: Fields, last: Value)
    requires |rest| % 2 == 0
    ensures ParsedFrom(rest + [last], acc) == ParsedFrom(rest, acc)
    decreases |rest|
  {
    if |rest| >= 2 {
      var acc' := if rest[0].Str? then acc[rest[0].s := rest[1]] else acc;
      assert (rest + [last])[2..] == rest[2..] + [last];
      ParsedFromTrailing(rest[2..], acc', last);
    }
  }

  /** The properties of parseFields on a whole argument list: no input, no
      fields; at most one field per pair; exactly the string keys of
      complete pairs; a trailing element is ignored. (Which value a key gets
      is ParsedFromLastWins.) */
  lemma ParsedSpec(fields: seq<Value>)
    ensures fields == [] ==> Parsed(fields) == map[]
    ensures |Parsed(fields)| <= |fields| / 2
    ensures forall k :: k in Parsed(fields) <==> exists p: nat :: HasPair(fields, p, k)
    ensures |fields| % 2 == 1 ==> Parsed(fields) == Parsed(fields[..|fields| - 1])
  {
    ParsedFromSize(fields, map[]);
    forall k ensures k in Parsed(fields) <==> exists p: nat :: HasPair(fields, p, k) {
      ParsedFromKeys(fields, map[], k);
    }
    if |fields| % 2 == 1 {
      assert fields == fields[..|fields| - 1] + [fields[|fields| - 1]];
      ParsedFromTrailing(fields[..|fields| - 1], map[], fields[|fields| - 1]);
    }
  }
}
