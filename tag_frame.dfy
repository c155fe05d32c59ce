/** The tag frame (subir/tag.py, `convert_id_columns`, `strip_empty_tags`,
    `drop_duplicates`): the rows of a tag CSV cut to an entity's six
    columns, and the three in-place passes that clean them before upload. */
module TagFrames {
  import opened Wrappers
  import opened Base
  import opened Strings

  /** One row of the tag frame: the entity's six columns in order (company,
      app, channel, the entity id, tag, subtag). Once the ids are decoded the
      id cell holds the decoded value, written as text. */
  datatype TagRow = TagRow(company: Cell, app: Cell, channel: Cell, id: Cell, tag: Cell, subtag: Cell)

  /** What JSON decoding makes of an id string: it raises, it gives a value
      pandas counts as missing (`null`, `NaN`), or it gives another value. */
  datatype Decoded = Malformed | Null | Value(text: string)

  datatype TagError = MalformedId(text: string) | MissingReportColumn

  // ---------------------------------------------------------------------
  // convert_id_columns

  /** The row after decoding its id: kept with the decoded id when the id is
      a string that decodes to a non-missing value, dropped otherwise. */
  function DecodedRow(r: TagRow, decode: string -> Decoded): seq<TagRow>
  {
    match r.id
    case Missing => []
    case Text(s) => (match decode(s) case Value(v) => [r.(id := Text(v))] case _ => [])
  }

  /** The id of `r` does not make the decoder raise. */
  predicate Decodable(r: TagRow, decode: string -> Decoded)
  {
    r.id.Text? ==> !decode(r.id.s).Malformed?
  }

  /** The rows that survive id decoding, in their original order. */
  function KeepDecoded(rows: seq<TagRow>, decode: string -> Decoded): seq<TagRow>
  {
    if rows == [] then [] else KeepDecoded(rows[..|rows| - 1], decode) + DecodedRow(rows[|rows| - 1], decode)
  }

  /** Decoding keeps the rows' relative order: it works row by row. */
  lemma {:induction false} KeepDecodedAppend(a: seq<TagRow>, b: seq<TagRow>, decode: string -> Decoded)
    ensures KeepDecoded(a + b, decode) == KeepDecoded(a, decode) + KeepDecoded(b, decode)
    decreases |b|
  {
    if b == [] {
      assert a + b == a;
    } else {
      var init := b[..|b| - 1];
      var last := DecodedRow(b[|b| - 1], decode);
      assert (a + b)[..|a + b| - 1] == a + init;
      assert (a + b)[|a + b| - 1] == b[|b| - 1];
      KeepDecodedAppend(a, init, decode);
      assert KeepDecoded(a + b, decode) == KeepDecoded(a + init, decode) + last;
      assert KeepDecoded(b, decode) == KeepDecoded(init, decode) + last;
      AppendAssociates(KeepDecoded(a, decode), KeepDecoded(init, decode), last);
    }
  }

  /** A row survives exactly when its id is a string that decodes to a
      non-missing value, and it survives with that value as its id. */
  lemma {:induction false} KeepDecodedMembers(rows: seq<TagRow>, decode: string -> Decoded, x: TagRow)
    ensures x in KeepDecoded(rows, decode) <==>
      exists i :: 0 <= i < |rows| && DecodedRow(rows[i], decode) == [x]
  {
    if rows != [] {
      var init := rows[..|rows| - 1];
      KeepDecodedMembers(init, decode, x);
      var last := DecodedRow(rows[|rows| - 1], decode);
      assert |last| <= 1;
      if exists i :: 0 <= i < |rows| && DecodedRow(rows[i], decode) == [x] {
        var i :| 0 <= i < |rows| && DecodedRow(rows[i], decode) == [x];
        if i < |rows| - 1 {
          assert init[i] == rows[i];
        } else {
          assert x in last;
        }
      }
      if x in KeepDecoded(init, decode) {
        var i :| 0 <= i < |init| && DecodedRow(init[i], decode) == [x];
        assert rows[i] == init[i];
      }
    }
  }

  /** The first row whose id makes the decoder raise, if any. */
  function FirstMalformed(rows: seq<TagRow>, decode: string -> Decoded): (k: nat)
    ensures k <= |rows|
    ensures forall i :: 0 <= i < k ==> Decodable(rows[i], decode)
    ensures k < |rows| ==> !Decodable(rows[k], decode)
  {
    if rows == [] then 0
    else if !Decodable(rows[0], decode) then 0
    else 1 + FirstMalformed(rows[1..], decode)
  }

  // ---------------------------------------------------------------------
  // strip_empty_tags

  /** Python's `str.isspace` for one character. */
  predicate IsSpace(c: char)
  {
    || ('\U{9}' <= c <= '\U{D}') || ('\U{1C}' <= c <= '\U{20}') || c == '\U{85}' || c == '\U{A0}'
    || c == '\U{1680}' || ('\U{2000}' <= c <= '\U{200A}') || c == '\U{2028}' || c == '\U{2029}'
    || c == '\U{202F}' || c == '\U{205F}' || c == '\U{3000}'
  }

  function LeftStrip(s: string): string
  {
    if s != [] && IsSpace(s[0]) then LeftStrip(s[1..]) else s
  }

  function RightStrip(s: string): string
  {
    if s != [] && IsSpace(s[|s| - 1]) then RightStrip(s[..|s| - 1]) else s
  }

  /** `lstrip` removes the leading whitespace and nothing else. */
  lemma {:induction false} LeftStripShape(s: string)
    ensures var r := LeftStrip(s);
      && |r| <= |s| && r == s[|s| - |r|..]
      && (r == [] || !IsSpace(r[0]))
      && (forall i :: 0 <= i < |s| - |r| ==> IsSpace(s[i]))
  {
    if s != [] && IsSpace(s[0]) {
      var t := s[1..];
      LeftStripShape(t);
      var r := LeftStrip(t);
      assert t[|t| - |r|..] == s[|s| - |r|..];
      forall i | 0 < i < |s| - |r|
        ensures IsSpace(s[i])
      {
        assert s[i] == t[i - 1];
      }
    }
  }

  /** `rstrip` removes the trailing whitespace and nothing else. */
  lemma {:induction false} RightStripShape(s: string)
    ensures var r := RightStrip(s);
      && |r| <= |s| && r == s[..|r|]
      && (r == [] || !IsSpace(r[|r| - 1]))
      && (forall i :: |r| <= i < |s| ==> IsSpace(s[i]))
  {
    if s != [] && IsSpace(s[|s| - 1]) {
      var t := s[..|s| - 1];
      RightStripShape(t);
      var r := RightStrip(t);
      assert t[..|r|] == s[..|r|];
      forall i | |r| <= i < |s| - 1
        ensures IsSpace(s[i])
      {
        assert s[i] == t[i];
      }
    }
  }

  /** `str.strip()`. */
  function Strip(s: string): string
  {
    RightStrip(LeftStrip(s))
  }

  /** `strip` removes exactly the leading and the trailing whitespace: the
      result is the slice of `s` after its leading whitespace and before its
      trailing whitespace, and it neither starts nor ends with whitespace. */
  lemma StripShape(s: string)
    ensures var r := Strip(s);
      var a := |s| - |LeftStrip(s)|;
      && 0 <= a && a + |r| <= |s| && s[a..a + |r|] == r
      && (forall i :: 0 <= i < a ==> IsSpace(s[i]))
      && (forall i :: a + |r| <= i < |s| ==> IsSpace(s[i]))
      && (r == [] || (!IsSpace(r[0]) && !IsSpace(r[|r| - 1])))
  {
    var l := LeftStrip(s);
    LeftStripShape(s);
    var r := RightStrip(l);
    RightStripShape(l);
    var a := |s| - |l|;
    assert s[a..a + |r|] == l[..|r|];
    forall i | a + |r| <= i < |s|
      ensures IsSpace(s[i])
    {
      assert s[i] == l[i - a];
    }
  }

  lemma LeftStripFixed(s: string)
    requires s == [] || !IsSpace(s[0])
    ensures LeftStrip(s) == s
  {
  }

  lemma RightStripFixed(s: string)
    requires s == [] || !IsSpace(s[|s| - 1])
    ensures RightStrip(s) == s
  {
  }

  /** Stripping twice strips no more than stripping once. */
  lemma StripIdempotent(s: string)
    ensures Strip(Strip(s)) == Strip(s)
  {
    var r := Strip(s);
    StripShape(s);
    LeftStripFixed(r);
    RightStripFixed(r);
  }

  /** `fillna('')`: a missing tag reads as the empty string. */
  function TagText(c: Cell): string
  {
    match c
    case Missing => ""
    case Text(s) => s
  }

  /** The row with both tag cells filled and stripped. */
  function StrippedTags(r: TagRow): TagRow
  {
    r.(tag := Text(Strip(TagText(r.tag))), subtag := Text(Strip(TagText(r.subtag))))
  }

  /** After the pass, both tag cells are strings without surrounding
      whitespace, a missing tag has become `''`, and a second pass changes
      nothing. */
  lemma StrippedTagsClean(r: TagRow)
    ensures var t := StrippedTags(r);
      && t.company == r.company && t.app == r.app && t.channel == r.channel && t.id == r.id
      && t.tag.Text? && t.subtag.Text?
      && (r.tag.Missing? ==> t.tag == Text(""))
      && (r.subtag.Missing? ==> t.subtag == Text(""))
      && (t.tag.s == [] || (!IsSpace(t.tag.s[0]) && !IsSpace(t.tag.s[|t.tag.s| - 1])))
      && (t.subtag.s == [] || (!IsSpace(t.subtag.s[0]) && !IsSpace(t.subtag.s[|t.subtag.s| - 1])))
      && StrippedTags(t) == t
  {
    StripShape(TagText(r.tag));
    StripShape(TagText(r.subtag));
    StripIdempotent(TagText(r.tag));
    StripIdempotent(TagText(r.subtag));
  }

  // ---------------------------------------------------------------------
  // drop_duplicates

  /** The column subsets rows are compared on: the identifier columns
      (channel and id), or those and the two tag columns. */
  datatype Subset = Identifier | IdentifierAndTags

  /** pandas' `keep`: the first row of a group, the last, or none. */
  datatype Keep = KeepFirst | KeepLast | KeepNone

  function Key(r: TagRow, subset: Subset): seq<Cell>
  {
    match subset
    case Identifier => [r.channel, r.id]
    case IdentifierAndTags => [r.channel, r.id, r.tag, r.subtag]
  }

  /** Whether `drop_duplicates(subset=subset, keep=keep)` keeps row `i`: no
      earlier row with its key (first), no later one (last), or no other one
      at all (none). */
  predicate Kept(rows: seq<TagRow>, i: int, subset: Subset, keep: Keep)
    requires 0 <= i < |rows|
  {
    match keep
    case KeepFirst => forall j :: 0 <= j < i ==> Key(rows[j], subset) != Key(rows[i], subset)
    case KeepLast => forall j :: i < j < |rows| ==> Key(rows[j], subset) != Key(rows[i], subset)
    case KeepNone => forall j :: 0 <= j < |rows| && j != i ==> Key(rows[j], subset) != Key(rows[i], subset)
  }

  /** The kept rows among the first `n`, in order. */
  function KeptPrefix(rows: seq<TagRow>, subset: Subset, keep: Keep, n: nat): seq<TagRow>
    requires n <= |rows|
  {
    if n == 0 then []
    else KeptPrefix(rows, subset, keep, n - 1) + (if Kept(rows, n - 1, subset, keep) then [rows[n - 1]] else [])
  }

  /** `drop_duplicates(subset=subset, keep=keep)`. */
  function Deduplicated(rows: seq<TagRow>, subset: Subset, keep: Keep): seq<TagRow>
  {
    KeptPrefix(rows, subset, keep, |rows|)
  }

  /** Some row shares its identifier key with another: `duplicated(keep=False)`
      marks at least one row. */
  predicate Conflicting(rows: seq<TagRow>)
  {
    exists i :: 0 <= i < |rows| && !Kept(rows, i, Identifier, KeepNone)
  }

  /** No two rows share a key. */
  predicate UniqueKeys(rows: seq<TagRow>, subset: Subset)
  {
    forall p, q :: 0 <= p < q < |rows| ==> Key(rows[p], subset) != Key(rows[q], subset)
  }

  /** The rows kept are exactly the rows at kept positions. */
  lemma {:induction false} KeptPrefixMembers(rows: seq<TagRow>, subset: Subset, keep: Keep, n: nat, x: TagRow)
    requires n <= |rows|
    ensures x in KeptPrefix(rows, subset, keep, n) <==> exists j :: 0 <= j < n && Kept(rows, j, subset, keep) && rows[j] == x
  {
    if exists j :: 0 <= j < n && Kept(rows, j, subset, keep) && rows[j] == x {
      var j :| 0 <= j < n && Kept(rows, j, subset, keep) && rows[j] == x;
      KeptPrefixHas(rows, subset, keep, n, j);
    }
    if x in KeptPrefix(rows, subset, keep, n) {
      KeptPrefixFrom(rows, subset, keep, n, x);
    }
  }

  /** A kept row among the first `n` is in the kept prefix. */
  lemma {:induction false} KeptPrefixHas(rows: seq<TagRow>, subset: Subset, keep: Keep, n: nat, j: nat)
    requires j < n <= |rows| && Kept(rows, j, subset, keep)
    ensures rows[j] in KeptPrefix(rows, subset, keep, n)
  {
    var init := KeptPrefix(rows, subset, keep, n - 1);
    var last := if Kept(rows, n - 1, subset, keep) then [rows[n - 1]] else [];
    assert KeptPrefix(rows, subset, keep, n) == init + last;
    if j < n - 1 {
      KeptPrefixHas(rows, subset, keep, n - 1, j);
      assert rows[j] in init;
    } else {
      assert rows[j] in last;
    }
  }

  /** A row of the kept prefix is a kept row among the first `n`. */
  lemma {:induction false} KeptPrefixFrom(rows: seq<TagRow>, subset: Subset, keep: Keep, n: nat, x: TagRow)
    requires n <= |rows| && x in KeptPrefix(rows, subset, keep, n)
    ensures exists j :: 0 <= j < n && Kept(rows, j, subset, keep) && rows[j] == x
  {
    var init := KeptPrefix(rows, subset, keep, n - 1);
    var last := if Kept(rows, n - 1, subset, keep) then [rows[n - 1]] else [];
    assert KeptPrefix(rows, subset, keep, n) == init + last;
    if x in init {
      KeptPrefixFrom(rows, subset, keep, n - 1, x);
    } else {
      assert x in last;
      assert 0 <= n - 1 < n && Kept(rows, n - 1, subset, keep) && rows[n - 1] == x;
    }
  }

  /** Whatever `keep` is, the rows kept have pairwise distinct keys. */
  lemma {:induction false} KeptPrefixUnique(rows: seq<TagRow>, subset: Subset, keep: Keep, n: nat)
    requires n <= |rows|
    ensures UniqueKeys(KeptPrefix(rows, subset, keep, n), subset)
  {
    if n > 0 {
      KeptPrefixUnique(rows, subset, keep, n - 1);
      var init := KeptPrefix(rows, subset, keep, n - 1);
      if Kept(rows, n - 1, subset, keep) {
        assert KeptPrefix(rows, subset, keep, n) == init + [rows[n - 1]];
        forall p | 0 <= p < |init|
          ensures Key(init[p], subset) != Key(rows[n - 1], subset)
        {
          assert init[p] in init;
          KeptPrefixFrom(rows, subset, keep, n - 1, init[p]);
          var j :| 0 <= j < n - 1 && Kept(rows, j, subset, keep) && rows[j] == init[p];
          KeptPairDistinct(rows, subset, keep, j, n - 1);
        }
        UniqueKeysAppend(init, rows[n - 1], subset);
      }
    }
  }

  /** Two kept rows never share a key, whichever of them `keep` favours. */
  lemma KeptPairDistinct(rows: seq<TagRow>, subset: Subset, keep: Keep, j: nat, i: nat)
    requires j < i < |rows| && Kept(rows, j, subset, keep) && Kept(rows, i, subset, keep)
    ensures Key(rows[j], subset) != Key(rows[i], subset)
  {
    match keep
    case KeepFirst =>
    case KeepLast =>
    case KeepNone =>
  }

  lemma UniqueKeysAppend(rows: seq<TagRow>, r: TagRow, subset: Subset)
    requires UniqueKeys(rows, subset)
    requires forall p :: 0 <= p < |rows| ==> Key(rows[p], subset) != Key(r, subset)
    ensures UniqueKeys(rows + [r], subset)
  {
    var t := rows + [r];
    forall p, q | 0 <= p < q < |t|
      ensures Key(t[p], subset) != Key(t[q], subset)
    {
      assert t[p] == rows[p];
    }
  }

  /** Keeping the first or the last row of each group loses no key: every
      key of the input is the key of some row kept. */
  lemma {:induction false} DeduplicatedKeepsEveryKey(rows: seq<TagRow>, subset: Subset, keep: Keep, i: nat)
    requires keep != KeepNone && i < |rows|
    ensures exists x :: x in Deduplicated(rows, subset, keep) && Key(x, subset) == Key(rows[i], subset)
    decreases if keep == KeepFirst then i else |rows| - i
  {
    if Kept(rows, i, subset, keep) {
      KeptPrefixMembers(rows, subset, keep, |rows|, rows[i]);
    } else if keep == KeepFirst {
      var j :| 0 <= j < i && Key(rows[j], subset) == Key(rows[i], subset);
      DeduplicatedKeepsEveryKey(rows, subset, keep, j);
    } else {
      var j :| i < j < |rows| && Key(rows[j], subset) == Key(rows[i], subset);
      DeduplicatedKeepsEveryKey(rows, subset, keep, j);
    }
  }

  /** The identifier key is the first two cells of the identifier-and-tags
      key, so unique identifier keys make the longer keys unique. */
  lemma UniqueIdentifierMakesUniqueRows(rows: seq<TagRow>)
    requires UniqueKeys(rows, Identifier)
    ensures UniqueKeys(rows, IdentifierAndTags)
  {
    forall p, q | 0 <= p < q < |rows|
      ensures Key(rows[p], IdentifierAndTags) != Key(rows[q], IdentifierAndTags)
    {
      assert Key(rows[p], Identifier) != Key(rows[q], Identifier);
    }
  }

  /** Without conflicts no row would be dropped with `keep=False`, so the
      frame has unique identifier keys already. */
  lemma NoConflictMeansUnique(rows: seq<TagRow>)
    requires !Conflicting(rows)
    ensures UniqueKeys(rows, Identifier)
  {
    forall p, q | 0 <= p < q < |rows|
      ensures Key(rows[p], Identifier) != Key(rows[q], Identifier)
    {
      assert Kept(rows, p, Identifier, KeepNone);
    }
  }

  /** The conflict resolutions offered by the prompt: (f)irst, (l)ast,
      (s)kip, (a)bort. */
  datatype Resolution = TakeFirst | TakeLast | Skip | Abort

  /** `keep_map`. */
  function KeepFor(resolution: Resolution): Keep
    requires resolution != Abort
  {
    match resolution
    case TakeFirst => KeepFirst
    case TakeLast => KeepLast
    case Skip => KeepNone
  }

  /** `drop_duplicates`: the exact duplicates (same identifier and tags) go,
      the first of each kept; if rows still share an identifier, they are
      resolved by the resolution chosen at the prompt when interactive and by
      keeping the last row otherwise, and abort answers false. The answer and
      the frame left behind. */
  function DropDuplicatesRun(rows: seq<TagRow>, interactive: bool, resolution: Resolution): (bool, seq<TagRow>)
  {
    var exact := Deduplicated(rows, IdentifierAndTags, KeepFirst);
    if !Conflicting(exact) then (true, exact)
    else if interactive && resolution == Abort then (false, exact)
    else
      var keep := if interactive then KeepFor(resolution) else KeepLast;
      (true, Deduplicated(exact, Identifier, keep))
  }

  /** Every row kept is a row of the input. */
  lemma DeduplicatedFromInput(rows: seq<TagRow>, subset: Subset, keep: Keep)
    ensures forall x :: x in Deduplicated(rows, subset, keep) ==> x in rows
  {
    forall x | x in Deduplicated(rows, subset, keep)
      ensures x in rows
    {
      KeptPrefixMembers(rows, subset, keep, |rows|, x);
    }
  }

  /** Dropping exact duplicates loses no identifier. */
  lemma ExactDuplicatesKeepIdentifiers(rows: seq<TagRow>)
    ensures var exact := Deduplicated(rows, IdentifierAndTags, KeepFirst);
      forall i :: 0 <= i < |rows| ==> exists k :: 0 <= k < |exact| && Key(exact[k], Identifier) == Key(rows[i], Identifier)
  {
    var exact := Deduplicated(rows, IdentifierAndTags, KeepFirst);
    forall i | 0 <= i < |rows|
      ensures exists k :: 0 <= k < |exact| && Key(exact[k], Identifier) == Key(rows[i], Identifier)
    {
      DeduplicatedKeepsEveryKey(rows, IdentifierAndTags, KeepFirst, i);
      var x :| x in exact && Key(x, IdentifierAndTags) == Key(rows[i], IdentifierAndTags);
      var k :| 0 <= k < |exact| && exact[k] == x;
      assert Key(x, Identifier) == Key(x, IdentifierAndTags)[..2];
      assert Key(rows[i], Identifier) == Key(rows[i], IdentifierAndTags)[..2];
    }
  }

  /** Resolving by the first or the last row of each identifier, after the
      exact duplicates went, still has every identifier of the input. */
  lemma ResolutionKeepsIdentifiers(rows: seq<TagRow>, keep: Keep)
    requires keep != KeepNone
    ensures var exact := Deduplicated(rows, IdentifierAndTags, KeepFirst);
      var left := Deduplicated(exact, Identifier, keep);
      forall i :: 0 <= i < |rows| ==> exists x :: x in left && Key(x, Identifier) == Key(rows[i], Identifier)
  {
    var exact := Deduplicated(rows, IdentifierAndTags, KeepFirst);
    ExactDuplicatesKeepIdentifiers(rows);
    forall i | 0 <= i < |rows|
      ensures exists x :: x in Deduplicated(exact, Identifier, keep) && Key(x, Identifier) == Key(rows[i], Identifier)
    {
      var k :| 0 <= k < |exact| && Key(exact[k], Identifier) == Key(rows[i], Identifier);
      DeduplicatedKeepsEveryKey(exact, Identifier, keep, k);
    }
  }

  /** When `drop_duplicates` answers true, no two rows are alike on the
      identifier, hence none on identifier and tags; it answers false exactly
      when an interactive run is aborted over a conflict; each row left is a
      row of the input; and unless conflicting rows are skipped, every
      identifier of the input is still there. */
  lemma DropDuplicatesOutcome(rows: seq<TagRow>, interactive: bool, resolution: Resolution)
    ensures var (ok, left) := DropDuplicatesRun(rows, interactive, resolution);
      && (ok ==> UniqueKeys(left, Identifier) && UniqueKeys(left, IdentifierAndTags))
      && (!ok <==> interactive && resolution == Abort && Conflicting(Deduplicated(rows, IdentifierAndTags, KeepFirst)))
      && (forall x :: x in left ==> x in rows)
      && (ok && !(interactive && resolution == Skip) ==>
            forall i :: 0 <= i < |rows| ==> exists x :: x in left && Key(x, Identifier) == Key(rows[i], Identifier))
  {
    var exact := Deduplicated(rows, IdentifierAndTags, KeepFirst);
    var (ok, left) := DropDuplicatesRun(rows, interactive, resolution);
    DeduplicatedFromInput(rows, IdentifierAndTags, KeepFirst);
    if !Conflicting(exact) {
      NoConflictMeansUnique(exact);
      ExactDuplicatesKeepIdentifiers(rows);
    } else if !(interactive && resolution == Abort) {
      var keep := if interactive then KeepFor(resolution) else KeepLast;
      assert left == Deduplicated(exact, Identifier, keep);
      KeptPrefixUnique(exact, Identifier, keep, |exact|);
      DeduplicatedFromInput(exact, Identifier, keep);
      if keep != KeepNone {
        ResolutionKeepsIdentifiers(rows, keep);
      }
    }
    if ok {
      UniqueIdentifierMakesUniqueRows(left);
    }
  }

  /** `drop_duplicates` as written: with a conflict in interactive mode it
      reads the frame's `ad_id` column for the report, which only an `ad`
      frame has; for the other entities that read raises. */
  function DropDuplicatesAsWritten(rows: seq<TagRow>, isAdFrame: bool, interactive: bool, resolution: Resolution)
    : (r: Result<(bool, seq<TagRow>), TagError>)
    ensures r.Success? ==> r.value == DropDuplicatesRun(rows, interactive, resolution)
  {
    var exact := Deduplicated(rows, IdentifierAndTags, KeepFirst);
    if Conflicting(exact) && interactive && !isAdFrame then Failure(MissingReportColumn)
    else Success(DropDuplicatesRun(rows, interactive, resolution))
  }

  /** Two adset rows with the same channel and id but different tags: the
      interactive run as written raises before the prompt is shown, while
      the entity's own id column would let the prompt resolve the conflict. */
  lemma AdsetConflictRaises()
    ensures var a := TagRow(Text("c"), Text("app"), Text("ch"), Text("1"), Text("x"), Text(""));
      var b := a.(tag := Text("y"));
      && DropDuplicatesAsWritten([a, b], false, true, TakeLast) == Failure(MissingReportColumn)
      && DropDuplicatesRun([a, b], true, TakeLast) == (true, [b])
  {
    var a := TagRow(Text("c"), Text("app"), Text("ch"), Text("1"), Text("x"), Text(""));
    var b := a.(tag := Text("y"));
    var rows := [a, b];
    assert Key(a, IdentifierAndTags) != Key(b, IdentifierAndTags) by {
      assert Key(a, IdentifierAndTags)[2] != Key(b, IdentifierAndTags)[2];
    }
    assert Kept(rows, 0, IdentifierAndTags, KeepFirst);
    assert Kept(rows, 1, IdentifierAndTags, KeepFirst);
    assert KeptPrefix(rows, IdentifierAndTags, KeepFirst, 1) == [a];
    assert Deduplicated(rows, IdentifierAndTags, KeepFirst) == rows;
    assert !Kept(rows, 0, Identifier, KeepNone);
    assert !Kept(rows, 0, Identifier, KeepLast);
    assert Kept(rows, 1, Identifier, KeepLast);
    assert KeptPrefix(rows, Identifier, KeepLast, 1) == [];
    assert Deduplicated(rows, Identifier, KeepLast) == [b];
  }

  // ---------------------------------------------------------------------
  // The frame

  /** The tag frame, updated in place by the cleaning passes. */
  class TagFrame {
    var rows: seq<TagRow>

    constructor (rows: seq<TagRow>)
      ensures this.rows == rows
    {
      this.rows := rows;
    }

    /** `convert_id_columns` on the entity's id column: a malformed id
        raises and leaves the frame as it was; otherwise ids are decoded and
        the rows whose id is missing or decodes to a missing value go. */
    method ConvertIdColumns(decode: string -> Decoded) returns (r: Result<(), TagError>)
      modifies this
      ensures r.Success? <==> FirstMalformed(old(rows), decode) == |old(rows)|
      ensures r.Success? ==> rows == KeepDecoded(old(rows), decode)
      ensures r.Failure? ==>
        && rows == old(rows)
        && var k := FirstMalformed(old(rows), decode);
           k < |rows| && r.error == MalformedId(rows[k].id.s)
    {
      var kept: seq<TagRow> := [];
      var i := 0;
      while i < |rows|
        invariant 0 <= i <= |rows|
        invariant kept == KeepDecoded(rows[..i], decode)
        invariant forall k :: 0 <= k < i ==> Decodable(rows[k], decode)
      {
        var row := rows[i];
        if row.id.Text? && decode(row.id.s).Malformed? {
          assert FirstMalformed(rows, decode) == i;
          return Failure(MalformedId(row.id.s));
        }
        assert rows[..i + 1][..i] == rows[..i];
        kept := kept + DecodedRow(row, decode);
        i := i + 1;
      }
      assert rows[..i] == rows;
      rows := kept;
      return Success(());
    }

    /** `strip_empty_tags` on the two tag columns: every row keeps its
        place, its tags filled and stripped. */
    method StripEmptyTags()
      modifies this
      ensures |rows| == |old(rows)|
      ensures forall i :: 0 <= i < |rows| ==> rows[i] == StrippedTags(old(rows)[i])
    {
      var i := 0;
      while i < |rows|
        invariant 0 <= i <= |rows| == |old(rows)|
        invariant forall k :: 0 <= k < i ==> rows[k] == StrippedTags(old(rows)[k])
        invariant forall k :: i <= k < |rows| ==> rows[k] == old(rows)[k]
      {
        rows := rows[i := StrippedTags(rows[i])];
        i := i + 1;
      }
    }

    /** Whether row `i` survives `drop_duplicates(subset=subset, keep=keep)`. */
    method IsKept(i: nat, subset: Subset, keep: Keep) returns (b: bool)
      requires i < |rows|
      ensures b == Kept(rows, i, subset, keep)
    {
      var j := 0;
      while j < |rows|
        invariant 0 <= j <= |rows|
        invariant keep == KeepFirst ==> forall k :: 0 <= k < j && k < i ==> Key(rows[k], subset) != Key(rows[i], subset)
        invariant keep == KeepLast ==> forall k :: i < k < j ==> Key(rows[k], subset) != Key(rows[i], subset)
        invariant keep == KeepNone ==> forall k :: 0 <= k < j && k != i ==> Key(rows[k], subset) != Key(rows[i], subset)
      {
        var counts := match keep case KeepFirst => j < i case KeepLast => i < j case KeepNone => j != i;
        if counts && Key(rows[j], subset) == Key(rows[i], subset) {
          return false;
        }
        j := j + 1;
      }
      return true;
    }

    /** `drop_duplicates(subset=subset, keep=keep, inplace=True)`. */
    method DropDuplicatesBy(subset: Subset, keep: Keep)
      modifies this
      ensures rows == Deduplicated(old(rows), subset, keep)
    {
      var kept: seq<TagRow> := [];
      var i := 0;
      while i < |rows|
        invariant 0 <= i <= |rows| && rows == old(rows)
        invariant kept == KeptPrefix(rows, subset, keep, i)
      {
        var b := IsKept(i, subset, keep);
        if b {
          kept := kept + [rows[i]];
        }
        i := i + 1;
      }
      rows := kept;
    }

    /** `any(duplicated(subset=identifier, keep=False))`. */
    method HasConflicts() returns (c: bool)
      ensures c == Conflicting(rows)
    {
      var i := 0;
      while i < |rows|
        invariant 0 <= i <= |rows|
        invariant forall k :: 0 <= k < i ==> Kept(rows, k, Identifier, KeepNone)
      {
        var b := IsKept(i, Identifier, KeepNone);
        if !b {
          return true;
        }
        i := i + 1;
      }
      return false;
    }

    /** `drop_duplicates`, with the entity's own id column read for the
        report: the answer and the frame left behind are those of
        `DropDuplicatesRun`. */
    method DropDuplicates(interactive: bool, resolution: Resolution) returns (ok: bool)
      modifies this
      ensures (ok, rows) == DropDuplicatesRun(old(rows), interactive, resolution)
    {
      DropDuplicatesBy(IdentifierAndTags, KeepFirst);
      var conflicts := HasConflicts();
      if !conflicts {
        return true;
      }
      var keep := KeepLast;
      if interactive {
        if resolution == Abort {
          return false;
        }
        keep := KeepFor(resolution);
      }
      DropDuplicatesBy(Identifier, keep);
      return true;
    }
  }
}
