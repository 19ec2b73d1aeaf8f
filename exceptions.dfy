/**
 * The application's error types and the two parsers that read PostgreSQL error text
 * (server/app/core/exceptions.py). The regular expressions are modelled exactly: each
 * greedy span in them can only end where the next character leaves its class, so a
 * match at a given position is unique.
 */
module Exceptions {
  import opened Wrappers
  import opened Text

  /** PostgreSQL SQLSTATE codes. */
  const PgForeignKeyViolation: string := "23503"
  const PgUniqueViolation: string := "23505"

  /** The three exception classes; ResourceNotFound and Validation are subclasses of BaseApp. */
  datatype ErrorKind = BaseApp | ResourceNotFound | Validation

  /** An application exception: its class, the message shown to the caller and the HTTP status. */
  datatype AppError = AppError(kind: ErrorKind, message: string, statusCode: int)

  function BaseAppException(message: string, statusCode: int := 500): AppError {
    AppError(BaseApp, message, statusCode)
  }

  function ResourceNotFoundException(message: string): AppError {
    AppError(ResourceNotFound, message, 404)
  }

  function ValidationException(message: string, statusCode: int := 400): AppError {
    AppError(Validation, message, statusCode)
  }

  /** Each class keeps its message; the base class defaults to 500, not-found is always 404, validation defaults to 400. */
  lemma StatusCodes(message: string, code: int)
    ensures BaseAppException(message) == AppError(BaseApp, message, 500)
    ensures BaseAppException(message, code).statusCode == code
    ensures ResourceNotFoundException(message) == AppError(ResourceNotFound, message, 404)
    ensures ValidationException(message) == AppError(Validation, message, 400)
    ensures ValidationException(message, code).statusCode == code
  {
  }

  /** The character classes that the two patterns repeat greedily. */
  datatype CharClass = Space | NotQuote | NotCloseParen

  predicate InClass(c: char, k: CharClass) {
    match k
    case Space => IsSpace(c)
    case NotQuote => c != '"'
    case NotCloseParen => c != ')'
  }

  predicate AllIn(s: string, k: CharClass) {
    forall i :: 0 <= i < |s| ==> InClass(s[i], k)
  }

  /** A string without a double quote lies inside the class `[^"]`. */
  lemma NoQuoteIsAllIn(s: string)
    requires '"' !in s
    ensures AllIn(s, NotQuote)
  {
  }

  /** Length of the longest prefix of `s` inside class `k` (what a greedy `k*` consumes). */
  function Span(s: string, k: CharClass): (n: nat)
    ensures n <= |s| && AllIn(s[..n], k)
    ensures n < |s| ==> !InClass(s[n], k)
  {
    if s == [] || !InClass(s[0], k) then 0 else 1 + Span(s[1..], k)
  }

  /** A greedy span stops exactly at the first character outside the class. */
  lemma {:induction false} SpanOfPrefix(a: string, b: string, k: CharClass)
    requires AllIn(a, k)
    requires b != [] && !InClass(b[0], k)
    ensures Span(a + b, k) == |a|
  {
    if a != [] {
      assert (a + b)[1..] == a[1..] + b;
      SpanOfPrefix(a[1..], b, k);
    }
  }

  // ---------------------------------------------------------------------------
  // constraint\s+"([^"]+)"

  const ConstraintWord: string := "constraint"

  /** The pattern `constraint\s+"([^"]+)"` matched at the very start of `s`; the captured group. */
  function ConstraintAt(s: string): Option<string> {
    if |s| < |ConstraintWord| || s[..|ConstraintWord|] != ConstraintWord then None
    else
      var r := s[|ConstraintWord|..];
      var w := Span(r, Space);
      if w == 0 || w == |r| || r[w] != '"' then None
      else
        var q := r[w + 1..];
        var n := Span(q, NotQuote);
        if n == 0 || n == |q| then None else Some(q[..n])
  }

  /** `s` is "constraint", whitespace, a quoted non-empty name without quotes, then anything. */
  ghost predicate ConstraintSplit(s: string, ws: string, name: string, rest: string) {
    && ws != [] && AllIn(ws, Space)
    && name != [] && AllIn(name, NotQuote)
    && s == ConstraintWord + ws + "\"" + name + "\"" + rest
  }

  /** A string is its prefix, the character at `i` and its suffix. */
  lemma CutAt(s: string, i: nat)
    requires i < |s|
    ensures s == s[..i] + [s[i]] + s[i + 1..]
  {
  }

  /** The two groupings of the pattern's five pieces are the same string. */
  lemma Regroup(ws: string, name: string, rest: string)
    ensures ConstraintWord + ws + "\"" + name + "\"" + rest == ConstraintWord + (ws + ("\"" + (name + ("\"" + rest))))
  {
  }

  /** What a successful match has checked, step by step. */
  lemma ConstraintAtShape(s: string) returns (r: string, w: nat, q: string, n: nat)
    requires ConstraintAt(s).Some?
    ensures |s| >= |ConstraintWord| && s[..|ConstraintWord|] == ConstraintWord && r == s[|ConstraintWord|..]
    ensures w == Span(r, Space) && 0 < w < |r| && r[w] == '"' && q == r[w + 1..]
    ensures n == Span(q, NotQuote) && 0 < n < |q| && q[n] == '"'
    ensures ConstraintAt(s) == Some(q[..n])
  {
    r := s[|ConstraintWord|..];
    w := Span(r, Space);
    q := r[w + 1..];
    n := Span(q, NotQuote);
  }

  /** The pieces of a successful match reassemble into the matched text. */
  lemma ConstraintPieces(s: string, r: string, w: nat, q: string, n: nat)
    requires |s| >= |ConstraintWord| && s[..|ConstraintWord|] == ConstraintWord && r == s[|ConstraintWord|..]
    requires w < |r| && r[w] == '"' && q == r[w + 1..]
    requires n < |q| && q[n] == '"'
    ensures s == ConstraintWord + r[..w] + "\"" + q[..n] + "\"" + q[n + 1..]
  {
    assert s == ConstraintWord + r by {
      assert s == s[..|ConstraintWord|] + r;
    }
    assert r == r[..w] + ("\"" + q) by {
      CutAt(r, w);
    }
    assert q == q[..n] + ("\"" + q[n + 1..]) by {
      CutAt(q, n);
    }
    Regroup(r[..w], q[..n], q[n + 1..]);
  }

  /** What the anchored matcher returns has the shape the pattern describes. */
  lemma ConstraintAtSound(s: string)
    requires ConstraintAt(s).Some?
    ensures exists ws, rest :: ConstraintSplit(s, ws, ConstraintAt(s).value, rest)
  {
    var r, w, q, n := ConstraintAtShape(s);
    ConstraintPieces(s, r, w, q, n);
    assert ConstraintSplit(s, r[..w], q[..n], q[n + 1..]);
  }

  /** The matcher's steps, each given: the word, the spaces, the opening quote and the name. */
  lemma ConstraintAtSteps(s: string, r: string, w: nat, q: string, n: nat)
    requires |s| >= |ConstraintWord| && s[..|ConstraintWord|] == ConstraintWord && r == s[|ConstraintWord|..]
    requires w == Span(r, Space) && 0 < w < |r| && r[w] == '"' && q == r[w + 1..]
    requires n == Span(q, NotQuote) && 0 < n < |q|
    ensures ConstraintAt(s) == Some(q[..n])
  {
  }

  /** A string of the shape the pattern describes is matched, and the group is its name. */
  lemma ConstraintAtComplete(s: string, ws: string, name: string, rest: string)
    requires ConstraintSplit(s, ws, name, rest)
    ensures ConstraintAt(s) == Some(name)
  {
    var tail := "\"" + rest;
    var q := name + tail;
    var after := "\"" + q;
    var r := ws + after;
    Regroup(ws, name, rest);
    assert s == ConstraintWord + r;
    assert s[..|ConstraintWord|] == ConstraintWord && s[|ConstraintWord|..] == r;
    SpanOfPrefix(ws, after, Space);
    assert r[|ws|] == '"' && r[|ws| + 1..] == q;
    SpanOfPrefix(name, tail, NotQuote);
    assert q[..|name|] == name;
    ConstraintAtSteps(s, r, |ws|, q, |name|);
  }

  /** The anchored matcher finds `name` exactly when `s` has the shape the pattern describes. */
  lemma ConstraintAtIff(s: string, name: string)
    ensures ConstraintAt(s) == Some(name) <==> exists ws, rest :: ConstraintSplit(s, ws, name, rest)
  {
    if ConstraintAt(s) == Some(name) {
      ConstraintAtSound(s);
    }
    if exists ws, rest :: ConstraintSplit(s, ws, name, rest) {
      var ws, rest :| ConstraintSplit(s, ws, name, rest);
      ConstraintAtComplete(s, ws, name, rest);
    }
  }

  /** `re.search` for the constraint pattern: the match that starts leftmost. */
  function SearchConstraint(s: string): Option<string>
    decreases |s|
  {
    if s == [] then None
    else if ConstraintAt(s).Some? then ConstraintAt(s)
    else SearchConstraint(s[1..])
  }

  /** The pattern matches at position `i` of `s` and at no earlier position. */
  ghost predicate LeftmostConstraintAt(s: string, i: int) {
    && 0 <= i < |s|
    && ConstraintAt(s[i..]).Some?
    && forall j :: 0 <= j < i ==> ConstraintAt(s[j..]).None?
  }

  /** The search returns the group of the leftmost match, or None when no position matches. */
  lemma {:induction false} SearchConstraintLeftmost(s: string)
    ensures SearchConstraint(s).None? <==> forall i :: 0 <= i < |s| ==> ConstraintAt(s[i..]).None?
    ensures SearchConstraint(s).Some? ==>
              exists i :: LeftmostConstraintAt(s, i) && SearchConstraint(s) == ConstraintAt(s[i..])
    decreases |s|
  {
    if s != [] {
      assert s[0..] == s;
      if ConstraintAt(s).None? {
        var t := s[1..];
        SearchConstraintLeftmost(t);
        assert SearchConstraint(s) == SearchConstraint(t);
        if SearchConstraint(t).Some? {
          var i :| LeftmostConstraintAt(t, i) && SearchConstraint(t) == ConstraintAt(t[i..]);
          assert LeftmostConstraintAt(s, i + 1) by {
            assert s[i + 1..] == t[i..];
            forall j | 0 <= j < i + 1 ensures ConstraintAt(s[j..]).None? {
              if j > 0 {
                assert s[j..] == t[j - 1..];
              }
            }
          }
        } else {
          forall i | 0 <= i < |s| ensures ConstraintAt(s[i..]).None? {
            if i > 0 {
              assert s[i..] == t[i - 1..];
            }
          }
        }
      } else {
        assert LeftmostConstraintAt(s, 0);
      }
    }
  }

  /** `extract_constraint_name`: the group of the first match, or "unknown". */
  function ExtractConstraintName(errorMessage: string): string {
    SearchConstraint(errorMessage).GetOr("unknown")
  }

  /**
   * The extracted name is the quoted name of the leftmost `constraint "<name>"` occurrence;
   * "unknown" is returned exactly when nothing matches or the constraint is itself called "unknown".
   */
  lemma ExtractConstraintNameSpec(errorMessage: string)
    ensures (forall i :: 0 <= i < |errorMessage| ==> ConstraintAt(errorMessage[i..]).None?)
              ==> ExtractConstraintName(errorMessage) == "unknown"
    ensures (exists i :: 0 <= i < |errorMessage| && ConstraintAt(errorMessage[i..]).Some?) ==>
              exists i, ws, rest :: LeftmostConstraintAt(errorMessage, i)
                && ConstraintSplit(errorMessage[i..], ws, ExtractConstraintName(errorMessage), rest)
  {
    SearchConstraintLeftmost(errorMessage);
    if SearchConstraint(errorMessage).Some? {
      var i :| LeftmostConstraintAt(errorMessage, i)
               && SearchConstraint(errorMessage) == ConstraintAt(errorMessage[i..]);
      ConstraintAtIff(errorMessage[i..], ExtractConstraintName(errorMessage));
    }
  }

  /**
   * A message whose text before `constraint "<name>"` has no letter 'c' (as in PostgreSQL's
   * foreign-key message) yields `name`.
   */
  lemma {:induction false} ConstraintAfterPlainPrefix(prefix: string, ws: string, name: string, rest: string)
    requires 'c' !in prefix
    requires ConstraintSplit(ConstraintWord + ws + "\"" + name + "\"" + rest, ws, name, rest)
    ensures ExtractConstraintName(prefix + (ConstraintWord + ws + "\"" + name + "\"" + rest)) == name
  {
    var tail := ConstraintWord + ws + "\"" + name + "\"" + rest;
    if prefix == [] {
      assert prefix + tail == tail;
      ConstraintAtIff(tail, name);
    } else {
      var s := prefix + tail;
      assert s[0] == prefix[0];
      assert s[..|ConstraintWord|][0] == s[0];
      assert ConstraintAt(s).None?;
      assert s[1..] == prefix[1..] + tail;
      ConstraintAfterPlainPrefix(prefix[1..], ws, name, rest);
    }
  }

  // ---------------------------------------------------------------------------
  // Detail:\s*Key\s*\(([^)]+)\)

  /** The pattern `Detail:\s*Key\s*\(([^)]+)\)` matched at the very start of `s`; the captured group. */
  function DetailAt(s: string): Option<string> {
    if |s| < 7 || s[..7] != "Detail:" then None
    else
      var r := s[7..];
      var r1 := r[Span(r, Space)..];
      if |r1| < 3 || r1[..3] != "Key" then None
      else
        var r2 := r1[3..];
        var r3 := r2[Span(r2, Space)..];
        if r3 == [] || r3[0] != '(' then None
        else
          var q := r3[1..];
          var n := Span(q, NotCloseParen);
          if n == 0 || n == |q| then None else Some(q[..n])
  }

  function SearchDetail(s: string): Option<string>
    decreases |s|
  {
    if s == [] then None
    else if DetailAt(s).Some? then DetailAt(s)
    else SearchDetail(s[1..])
  }

  /** The field named by a constraint that follows the `<table>_<field>_key` naming convention. */
  function KeyFieldOfConstraint(constraintName: string): Option<string> {
    if '_' in constraintName then
      var parts := Split(constraintName, '_');
      if |parts| >= 2 && parts[|parts| - 1] == "key" then Some(parts[|parts| - 2]) else None
    else None
  }

  /** The field of the Detail fallback: the first comma-separated entry of the key list, trimmed. */
  function DetailField(keyList: string): string {
    Strip(Split(keyList, ',')[0])
  }

  /**
   * `extract_unique_violation_details`: the field that a unique violation is about. A
   * constraint name ending in `_<field>_key` gives that field, or "unknown" when the field
   * part is empty; the Detail text is read only when the name does not end in `_key`.
   */
  function ExtractUniqueViolationDetails(errorMessage: string): (field: string)
    ensures field != []
    ensures var fromName := KeyFieldOfConstraint(ExtractConstraintName(errorMessage));
      && (fromName.Some? && fromName.value != [] ==> field == fromName.value)
      && (fromName == Some([]) ==> field == "unknown")
  {
    var fromName := KeyFieldOfConstraint(ExtractConstraintName(errorMessage));
    var field :=
      if fromName.Some? then fromName
      else match SearchDetail(errorMessage)
        case Some(keys) => Some(DetailField(keys))
        case None => None;
    if field.None? || field.value == [] then "unknown" else field.value
  }

  /** Splitting a concatenation at a separator splits each side. */
  lemma {:induction false} SplitAround(x: string, sep: char, y: string)
    requires sep !in x
    ensures Split(x + [sep] + y, sep) == [x] + Split(y, sep)
  {
    var s := x + [sep] + y;
    assert s[|x|] == sep;
    assert s[..|x|] == x;
    assert IndexOf(s, sep) == |x|;
    assert s[|x| + 1..] == y;
  }

  /** `<prefix>_<field>_key` names the field `field`, whatever the prefix, e.g. `users_email_key` → `email`. */
  lemma KeyFieldConvention(prefix: string, field: string)
    requires '_' !in field
    ensures KeyFieldOfConstraint(prefix + "_" + field + "_key") == Some(field)
  {
    var tail := field + "_key";
    var name := prefix + "_" + field + "_key";
    assert name == prefix + "_" + tail;
    assert name[|prefix|] == '_';
    assert tail == field + ['_'] + "key";
    SplitAround(field, '_', "key");
    SplitNoSep("key", '_');
    assert Split(tail, '_') == [field, "key"];
    SplitSuffix(prefix, tail);
  }

  /** The last two parts of `p_t` split at '_' are those of `t` when `t` has at least two parts. */
  lemma {:induction false} SplitSuffix(prefix: string, tail: string)
    requires |Split(tail, '_')| == 2
    ensures var parts := Split(prefix + "_" + tail, '_');
            |parts| >= 2 && parts[|parts| - 2..] == Split(tail, '_')
    decreases |prefix|
  {
    var s := prefix + "_" + tail;
    if '_' !in prefix {
      assert s == prefix + ['_'] + tail;
      SplitAround(prefix, '_', tail);
    } else {
      var i := IndexOf(prefix, '_');
      var p2 := prefix[i + 1..];
      assert prefix == prefix[..i] + ['_'] + p2;
      assert s == prefix[..i] + ['_'] + (p2 + "_" + tail);
      SplitAround(prefix[..i], '_', p2 + "_" + tail);
      SplitSuffix(p2, tail);
    }
  }

  /** The name `_key` gives an empty field, which skips the Detail fallback and becomes "unknown". */
  lemma UnderscoreKeyIsUnknown(errorMessage: string)
    requires ExtractConstraintName(errorMessage) == "_key"
    ensures ExtractUniqueViolationDetails(errorMessage) == "unknown"
  {
    UnderscoreKeyField();
  }

  /** `_key` splits into an empty part and "key". */
  lemma UnderscoreKeyField()
    ensures KeyFieldOfConstraint("_key") == Some([])
  {
    var key := "key";
    assert "_key" == [] + ['_'] + key;
    SplitAround([], '_', key);
    SplitNoSep(key, '_');
    assert Split("_key", '_') == [[], key];
  }

  /** A unique violation on a constraint named `<prefix>_<field>_key` is about `field`, e.g. `users_email_key` → `email`. */
  lemma UniqueViolationField(errorMessage: string, prefix: string, field: string)
    requires ExtractConstraintName(errorMessage) == prefix + "_" + field + "_key"
    requires field != [] && '_' !in field
    ensures ExtractUniqueViolationDetails(errorMessage) == field
  {
    KeyFieldConvention(prefix, field);
  }

  /** Without a `_key` name the field comes from the Detail text, trimmed, when there is one. */
  lemma DetailFallback(errorMessage: string)
    requires KeyFieldOfConstraint(ExtractConstraintName(errorMessage)).None?
    ensures SearchDetail(errorMessage).None? ==> ExtractUniqueViolationDetails(errorMessage) == "unknown"
    ensures SearchDetail(errorMessage).Some? && DetailField(SearchDetail(errorMessage).value) != [] ==>
              ExtractUniqueViolationDetails(errorMessage) == DetailField(SearchDetail(errorMessage).value)
    ensures SearchDetail(errorMessage).Some? && DetailField(SearchDetail(errorMessage).value) == [] ==>
              ExtractUniqueViolationDetails(errorMessage) == "unknown"
  {
  }
}
