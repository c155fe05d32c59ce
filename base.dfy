/** Column typing and name sanitising (subir/base.py): the warehouse column
    types, how a type is inferred from a parsed CSV column or read back from
    the type string the warehouse reports, and the character rules for table
    and column names. */
module Base {
  import opened Wrappers

  /** One value of a parsed CSV column: a string, or pandas' missing value. */
  datatype Cell = Missing | Text(s: string)

  /** The closed set of column types, each carrying its warehouse type string. */
  datatype ColumnType = Integer | Decimal | Date | ShortText | MediumText | LongText | Boolean
  {
    function Value(): string
    {
      match this
      case Integer => "bigint"
      case Decimal => "double precision"
      case Date => "date"
      case ShortText => "character varying(256)"
      case MediumText => "character varying(8192)"
      case LongText => "character varying(32768)"
      case Boolean => "boolean"
    }

    predicate IsText()
    {
      ShortText? || MediumText? || LongText?
    }
  }

  /** Distinct members carry distinct warehouse strings, so a string names at most one member. */
  lemma ValueInjective(t: ColumnType, u: ColumnType)
    requires t.Value() == u.Value()
    ensures t == u
  {
    assert t.Value()[0] == u.Value()[0];
    assert |t.Value()| == |u.Value()|;
  }

  /** `ColumnType(value)`: the member whose warehouse string is exactly `value`. */
  function FromValue(value: string): (r: Option<ColumnType>)
    ensures r.Some? ==> r.value.Value() == value
    ensures r.None? ==> forall t: ColumnType :: t.Value() != value
  {
    if value == "bigint" then Some(Integer)
    else if value == "double precision" then Some(Decimal)
    else if value == "date" then Some(Date)
    else if value == "character varying(256)" then Some(ShortText)
    else if value == "character varying(8192)" then Some(MediumText)
    else if value == "character varying(32768)" then Some(LongText)
    else if value == "boolean" then Some(Boolean)
    else None
  }

  predicate StartsWith(s: string, prefix: string)
  {
    |prefix| <= |s| && s[..|prefix|] == prefix
  }

  /** Reads a warehouse-reported type string: an exact member string first,
      then the prefixes of parameterised types; anything else is an error
      carrying the string. */
  function FromQueryResult(result: string): (r: Result<ColumnType, string>)
    ensures r.Failure? ==> r.error == result
    ensures r.Failure? <==>
      && (forall t: ColumnType :: t.Value() != result)
      && !StartsWith(result, "character varying") && !StartsWith(result, "USER-DEFINED")
      && !StartsWith(result, "integer") && !StartsWith(result, "numeric")
      && !StartsWith(result, "timestamp")
  {
    match FromValue(result)
    case Some(t) => Success(t)
    case None =>
      if StartsWith(result, "character varying") || StartsWith(result, "USER-DEFINED") then Success(LongText)
      else if StartsWith(result, "integer") then Success(Integer)
      else if StartsWith(result, "numeric") then Success(Decimal)
      else if StartsWith(result, "timestamp") then Success(Date)
      else Failure(result)
  }

  /** Every member's own string reads back as that member: the exact match is
      tried before the prefixes, so `character varying(256)` is short text. */
  lemma FromQueryResultRoundTrip(t: ColumnType)
    ensures FromQueryResult(t.Value()) == Success(t)
  {
    var r := FromValue(t.Value());
    assert r.Some?;
    ValueInjective(r.value, t);
  }

  /** What a string that is not a member's own string is read as. */
  lemma FromQueryResultPrefixes(result: string)
    requires forall t: ColumnType :: t.Value() != result
    ensures StartsWith(result, "character varying") ==> FromQueryResult(result) == Success(LongText)
    ensures StartsWith(result, "USER-DEFINED") ==> FromQueryResult(result) == Success(LongText)
    ensures StartsWith(result, "integer") ==> FromQueryResult(result) == Success(Integer)
    ensures StartsWith(result, "numeric") ==> FromQueryResult(result) == Success(Decimal)
    ensures StartsWith(result, "timestamp") ==> FromQueryResult(result) == Success(Date)
  {
    if result != [] {
      FirstChar(result, "character varying");
      FirstChar(result, "USER-DEFINED");
      FirstChar(result, "integer");
      FirstChar(result, "numeric");
      FirstChar(result, "timestamp");
    }
  }

  lemma FirstChar(s: string, prefix: string)
    requires s != [] && prefix != []
    ensures StartsWith(s, prefix) ==> s[0] == prefix[0]
  {
    if StartsWith(s, prefix) {
      assert s[..|prefix|][0] == s[0];
    }
  }

  // ---------------------------------------------------------------------
  // Inference from a parsed CSV column

  /** `str(value)`: pandas' missing value prints as `nan`. */
  function Rendered(c: Cell): string
  {
    match c
    case Missing => "nan"
    case Text(s) => s
  }

  /** The longest rendered value; `None` for a column without values, where
      pandas' `max()` gives NaN. */
  function MaxLength(column: seq<Cell>): (m: Option<nat>)
    ensures m.None? <==> column == []
    ensures m.Some? ==> forall i :: 0 <= i < |column| ==> |Rendered(column[i])| <= m.value
    ensures m.Some? ==> exists i :: 0 <= i < |column| && |Rendered(column[i])| == m.value
  {
    if column == [] then None
    else
      var here := |Rendered(column[0])|;
      match MaxLength(column[1..])
      case None => Some(here)
      case Some(rest) => Some(if here < rest then rest else here)
  }

  /** `not value or pd.isna(value)`: the values the date scan skips. */
  predicate IsBlank(c: Cell)
  {
    c == Missing || c == Text("")
  }

  /** The two character classes of the date patterns. */
  datatype CharClass = Digit | DateSeparator

  predicate InClass(c: char, k: CharClass)
  {
    match k
    case Digit => '0' <= c <= '9'
    case DateSeparator => c == '/' || c == '-'
  }

  /** A regular-expression element `[class]{min,max}`. */
  datatype Repeat = Repeat(cls: CharClass, min: nat, max: nat)

  /** `[0-9]{1,2}[/-][0-9]{1,2}[/-][0-9]{2,4}` */
  const DayFirst: seq<Repeat> :=
    [Repeat(Digit, 1, 2), Repeat(DateSeparator, 1, 1), Repeat(Digit, 1, 2),
     Repeat(DateSeparator, 1, 1), Repeat(Digit, 2, 4)]

  /** `[0-9]{2,4}[/-][0-9]{1,2}[/-][0-9]{1,2}` */
  const YearFirst: seq<Repeat> :=
    [Repeat(Digit, 2, 4), Repeat(DateSeparator, 1, 1), Repeat(Digit, 1, 2),
     Repeat(DateSeparator, 1, 1), Repeat(Digit, 1, 2)]

  predicate AllInClass(t: string, k: CharClass)
  {
    forall i :: 0 <= i < |t| ==> InClass(t[i], k)
  }

  /** `re.match(p, s)`: does the pattern match some PREFIX of `s`? */
  predicate MatchesPrefix(p: seq<Repeat>, s: string)
    decreases |p|, 1, 0
  {
    p == [] || TryRun(p, s, p[0].min)
  }

  /** Can the first element take a run of `n` or more (up to its maximum)
      characters and the rest of the pattern match after that run? */
  predicate TryRun(p: seq<Repeat>, s: string, n: nat)
    requires p != []
    decreases |p|, 0, p[0].max + 1 - n
  {
    if n > p[0].max || n > |s| then false
    else (AllInClass(s[..n], p[0].cls) && MatchesPrefix(p[1..], s[n..])) || TryRun(p, s, n + 1)
  }

  /** The match is not anchored at the end: whatever follows a matching
      prefix does not matter. */
  lemma {:induction false} MatchesPrefixExtends(p: seq<Repeat>, s: string, t: string)
    requires MatchesPrefix(p, s)
    ensures MatchesPrefix(p, s + t)
    decreases |p|, 1, 0
  {
    if p != [] {
      TryRunExtends(p, s, t, p[0].min);
    }
  }

  lemma {:induction false} TryRunExtends(p: seq<Repeat>, s: string, t: string, n: nat)
    requires p != [] && TryRun(p, s, n)
    ensures TryRun(p, s + t, n)
    decreases |p|, 0, p[0].max + 1 - n
  {
    if AllInClass(s[..n], p[0].cls) && MatchesPrefix(p[1..], s[n..]) {
      assert (s + t)[..n] == s[..n];
      assert (s + t)[n..] == s[n..] + t;
      MatchesPrefixExtends(p[1..], s[n..], t);
    } else {
      TryRunExtends(p, s, t, n + 1);
    }
  }

  /** A value passes the date check when either pattern matches a prefix of it. */
  predicate LooksLikeDate(s: string)
  {
    MatchesPrefix(DayFirst, s) || MatchesPrefix(YearFirst, s)
  }

  /** The date check: at least one value that is not blank, and every such
      value looks like a date. */
  predicate IsDateColumn(column: seq<Cell>)
  {
    && (exists i :: 0 <= i < |column| && !IsBlank(column[i]))
    && (forall i :: 0 <= i < |column| && !IsBlank(column[i]) ==> column[i].Text? && LooksLikeDate(column[i].s))
  }

  /** `_pd_column_is_date`: a scan that skips blanks, clears `empty` on the
      first other value and gives up on the first value that is no date. */
  method PdColumnIsDate(column: seq<Cell>) returns (isDate: bool)
    ensures isDate == IsDateColumn(column)
  {
    var empty := true;
    for i := 0 to |column|
      invariant empty <==> forall j :: 0 <= j < i ==> IsBlank(column[j])
      invariant forall j :: 0 <= j < i && !IsBlank(column[j]) ==> column[j].Text? && LooksLikeDate(column[j].s)
    {
      var value := column[i];
      if IsBlank(value) {
        continue;
      }
      empty := false;
      if !MatchesPrefix(DayFirst, value.s) && !MatchesPrefix(YearFirst, value.s) {
        return false;
      }
    }
    return !empty;
  }

  /** `from_pd_column`: the type inferred from a column's dtype name and values. */
  function FromPdColumn(dtype: string, column: seq<Cell>): (t: ColumnType)
    ensures dtype == "int64" ==> t == Integer
    ensures dtype == "float64" ==> t == Decimal
    ensures dtype == "bool" ==> t == Boolean
    ensures dtype !in {"int64", "float64", "bool", "object"} ==> t == LongText
    ensures dtype == "object" ==>
      (t == LongText <==> exists i :: 0 <= i < |column| && |Rendered(column[i])| > 2048)
    ensures dtype == "object" ==>
      (t == MediumText <==>
        && (forall i :: 0 <= i < |column| ==> |Rendered(column[i])| <= 2048)
        && (column == [] || exists i :: 0 <= i < |column| && |Rendered(column[i])| >= 64))
    ensures dtype == "object" ==>
      (t == Date <==>
        column != [] && (forall i :: 0 <= i < |column| ==> |Rendered(column[i])| < 64) && IsDateColumn(column))
    ensures dtype == "object" ==>
      (t == ShortText <==>
        column != [] && (forall i :: 0 <= i < |column| ==> |Rendered(column[i])| < 64) && !IsDateColumn(column))
  {
    if dtype == "int64" then Integer
    else if dtype == "float64" then Decimal
    else if dtype == "bool" then Boolean
    else if dtype == "object" then
      match MaxLength(column)
      // NaN > 2048 and NaN < 64 are both false
      case None => MediumText
      case Some(length) =>
        if length > 2048 then LongText
        else if length < 64 then (if IsDateColumn(column) then Date else ShortText)
        else MediumText
    else LongText
  }

  /** The inferred type does not depend on the order of the column's values. */
  lemma FromPdColumnOrderInvariant(dtype: string, a: seq<Cell>, b: seq<Cell>)
    requires multiset(a) == multiset(b)
    ensures FromPdColumn(dtype, a) == FromPdColumn(dtype, b)
  {
    forall c | true ensures c in a <==> c in b {
      assert c in a <==> c in multiset(a);
      assert c in b <==> c in multiset(b);
    }
    SameValuesSameMaxLength(a, b);
    SameValuesSameDateVerdict(a, b);
    FromPdColumnDeterminedBy(dtype, a, b);
  }

  /** The inference looks at a column only through its longest value and the date check. */
  lemma FromPdColumnDeterminedBy(dtype: string, a: seq<Cell>, b: seq<Cell>)
    requires MaxLength(a) == MaxLength(b) && IsDateColumn(a) == IsDateColumn(b)
    ensures FromPdColumn(dtype, a) == FromPdColumn(dtype, b)
  {
  }

  /** Two columns holding the same values get the same date verdict. */
  lemma SameValuesSameDateVerdict(a: seq<Cell>, b: seq<Cell>)
    requires forall c :: c in a <==> c in b
    ensures IsDateColumn(a) == IsDateColumn(b)
  {
    SameValuesSameVerdict(a, b);
    SameValuesSameVerdict(b, a);
  }

  lemma SameValuesSameVerdict(a: seq<Cell>, b: seq<Cell>)
    requires forall c :: c in a ==> c in b
    ensures (exists i :: 0 <= i < |a| && !IsBlank(a[i])) ==> (exists j :: 0 <= j < |b| && !IsBlank(b[j]))
    ensures (forall j :: 0 <= j < |b| && !IsBlank(b[j]) ==> b[j].Text? && LooksLikeDate(b[j].s)) ==>
            (forall i :: 0 <= i < |a| && !IsBlank(a[i]) ==> a[i].Text? && LooksLikeDate(a[i].s))
  {
    forall i | 0 <= i < |a| ensures exists j :: 0 <= j < |b| && b[j] == a[i] {
      assert a[i] in b;
    }
  }

  /** Two columns holding the same values have the same longest value. */
  lemma SameValuesSameMaxLength(a: seq<Cell>, b: seq<Cell>)
    requires forall c :: c in a <==> c in b
    ensures MaxLength(a) == MaxLength(b)
  {
    NonEmptyValues(a, b);
    NonEmptyValues(b, a);
    if a != [] {
      MaxLengthBelow(a, b);
      MaxLengthBelow(b, a);
    }
  }

  /** The longest value of a column is no longer than that of a column holding all its values. */
  lemma MaxLengthBelow(a: seq<Cell>, b: seq<Cell>)
    requires forall c :: c in a ==> c in b
    requires a != [] && b != []
    ensures MaxLength(a).value <= MaxLength(b).value
  {
    var i :| 0 <= i < |a| && |Rendered(a[i])| == MaxLength(a).value;
    assert a[i] in b;
    var k :| 0 <= k < |b| && b[k] == a[i];
  }

  lemma NonEmptyValues(a: seq<Cell>, b: seq<Cell>)
    requires forall c :: c in a ==> c in b
    ensures a != [] ==> b != []
  {
    if a != [] {
      assert a[0] in b;
    }
  }

  /** `pd_type`: the pandas conversion applied before rows are inserted. */
  datatype PdDtype = NullableInt64 | Float | Bool | Datetime64ns | Object

  function PdType(t: ColumnType): (d: PdDtype)
    ensures d == Object <==> t.IsText()
  {
    match t
    case Integer => NullableInt64
    case Decimal => Float
    case Boolean => Bool
    case Date => Datetime64ns
    case _ => Object
  }

  /** Only the text types share a conversion; every other type has its own. */
  lemma PdTypeDistinguishesNonText(t: ColumnType, u: ColumnType)
    requires !t.IsText() && PdType(t) == PdType(u)
    ensures u == t
  {
  }

  // ---------------------------------------------------------------------
  // Name sanitising

  /** `str.lower()` on the ASCII letters. */
  function Lower(c: char): char
  {
    if 'A' <= c <= 'Z' then (c as int - 'A' as int + 'a' as int) as char else c
  }

  predicate IsRelationChar(c: char)
  {
    'a' <= c <= 'z' || '0' <= c <= '9' || c == '_'
  }

  predicate IsColumnChar(c: char)
  {
    IsRelationChar(c) || c == ' '
  }

  /** `re.sub(r'[^a-z0-9_]', '_', name.lower())` */
  function SanitizedRelationName(name: string): (r: string)
    ensures |r| == |name|
  {
    if name == [] then []
    else
      var c := Lower(name[0]);
      [if IsRelationChar(c) then c else '_'] + SanitizedRelationName(name[1..])
  }

  /** `re.sub(r'[^a-z0-9_ ]', '_', name.lower())` */
  function SanitizedColumnName(name: string): (r: string)
    ensures |r| == |name|
  {
    if name == [] then []
    else
      var c := Lower(name[0]);
      [if IsColumnChar(c) then c else '_'] + SanitizedColumnName(name[1..])
  }

  /** Every character of a sanitized name is allowed; an allowed character
      of the lower-cased name is kept, every other one becomes `_`. */
  lemma {:induction false} RelationNameShape(name: string)
    ensures var r := SanitizedRelationName(name);
      && (forall i :: 0 <= i < |r| ==> IsRelationChar(r[i]))
      && (forall i :: 0 <= i < |r| ==> r[i] == if IsRelationChar(Lower(name[i])) then Lower(name[i]) else '_')
  {
    if name != [] {
      RelationNameShape(name[1..]);
      var r := SanitizedRelationName(name);
      assert forall i :: 1 <= i < |r| ==> r[i] == SanitizedRelationName(name[1..])[i - 1];
    }
  }

  /** A name passes the table-name gate exactly when it is made of `[a-z0-9_]`. */
  lemma {:induction false} RelationNameFixedPoint(name: string)
    ensures SanitizedRelationName(name) == name <==> forall i :: 0 <= i < |name| ==> IsRelationChar(name[i])
  {
    if name != [] {
      RelationNameFixedPoint(name[1..]);
      assert name == [name[0]] + name[1..];
    }
  }

  /** Every character of a sanitized name is allowed; an allowed character
      of the lower-cased name is kept, every other one becomes `_`. */
  lemma {:induction false} ColumnNameShape(name: string)
    ensures var r := SanitizedColumnName(name);
      && (forall i :: 0 <= i < |r| ==> IsColumnChar(r[i]))
      && (forall i :: 0 <= i < |r| ==> r[i] == if IsColumnChar(Lower(name[i])) then Lower(name[i]) else '_')
  {
    if name != [] {
      ColumnNameShape(name[1..]);
      var r := SanitizedColumnName(name);
      assert forall i :: 1 <= i < |r| ==> r[i] == SanitizedColumnName(name[1..])[i - 1];
    }
  }

  /** A name passes the column-name gate exactly when it is made of `[a-z0-9_ ]`. */
  lemma {:induction false} ColumnNameFixedPoint(name: string)
    ensures SanitizedColumnName(name) == name <==> forall i :: 0 <= i < |name| ==> IsColumnChar(name[i])
  {
    if name != [] {
      ColumnNameFixedPoint(name[1..]);
      assert name == [name[0]] + name[1..];
    }
  }

  lemma RelationNameIdempotent(name: string)
    ensures SanitizedRelationName(SanitizedRelationName(name)) == SanitizedRelationName(name)
  {
    RelationNameShape(name);
    RelationNameFixedPoint(SanitizedRelationName(name));
  }

  lemma ColumnNameIdempotent(name: string)
    ensures SanitizedColumnName(SanitizedColumnName(name)) == SanitizedColumnName(name)
  {
    ColumnNameShape(name);
    ColumnNameFixedPoint(SanitizedColumnName(name));
  }

  /** A valid table name is also a valid column name (the converse fails on spaces). */
  lemma RelationFixedPointIsColumnFixedPoint(name: string)
    requires SanitizedRelationName(name) == name
    ensures SanitizedColumnName(name) == name
  {
    RelationNameFixedPoint(name);
    ColumnNameFixedPoint(name);
  }
}
