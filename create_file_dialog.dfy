/**
 * components/CreateFileDialog.tsx: how `handleSubmit` turns the form's
 * five text fields into the data it submits, or refuses to submit.
 */
module CreateFileDialog {
  import opened Wrappers
  import opened Text
  import opened Types

  /** The form's five text fields. */
  datatype Form = Form(
    name: string,
    niche: string,
    location: string,
    keywordsInput: string,
    excludeKeywordsInput: string)

  /** A keyword as the form stores it: non-empty, no comma, and no
      whitespace at either end. */
  predicate CleanKeyword(k: string) {
    && k != []
    && ',' !in k
    && !IsWhitespace(k[0]) && !IsWhitespace(k[|k| - 1])
  }

  /** One piece after `.map(k => k.trim()).filter(k => k.length > 0)`:
      its trimmed text, or nothing when that is empty. */
  function Kept(piece: string): (r: seq<string>)
    ensures |r| <= 1
  {
    if Trim(piece) == [] then [] else [Trim(piece)]
  }

  /** A comma-free piece keeps nothing or one clean keyword. */
  lemma KeptClean(piece: string)
    requires ',' !in piece
    ensures forall i :: 0 <= i < |Kept(piece)| ==> CleanKeyword(Kept(piece)[i])
  {
    TrimNoNewChar(piece, ',');
  }

  /** Each piece's outcome, concatenated in order. */
  function FlatMap(pieces: seq<string>, f: string -> seq<string>): seq<string> {
    if pieces == [] then [] else f(pieces[0]) + FlatMap(pieces[1..], f)
  }

  lemma {:induction false} FlatMapAppend(a: seq<string>, b: seq<string>, f: string -> seq<string>)
    ensures FlatMap(a + b, f) == FlatMap(a, f) + FlatMap(b, f)
  {
    if a == [] {
      assert a + b == b;
    } else {
      assert (a + b)[0] == a[0] && (a + b)[1..] == a[1..] + b;
      FlatMapAppend(a[1..], b, f);
    }
  }

  /** When each piece yields at most one string and every string yielded
      passes `ok`, so does everything in the flattened outcome, and there
      are no more of them than pieces. */
  lemma {:induction false} FlatMapEach(pieces: seq<string>, f: string -> seq<string>, ok: string -> bool)
    requires forall j :: 0 <= j < |pieces| ==> |f(pieces[j])| <= 1
    requires forall j :: 0 <= j < |pieces| ==> forall i :: 0 <= i < |f(pieces[j])| ==> ok(f(pieces[j])[i])
    ensures |FlatMap(pieces, f)| <= |pieces|
    ensures forall i :: 0 <= i < |FlatMap(pieces, f)| ==> ok(FlatMap(pieces, f)[i])
  {
    if pieces != [] {
      var head := f(pieces[0]);
      var rest := FlatMap(pieces[1..], f);
      assert forall j :: 0 <= j < |pieces[1..]| ==> pieces[1..][j] == pieces[j + 1];
      FlatMapEach(pieces[1..], f, ok);
      assert FlatMap(pieces, f) == head + rest;
      forall i | 0 <= i < |head + rest| ensures ok((head + rest)[i]) {
        if i < |head| {
          assert (head + rest)[i] == head[i];
        } else {
          assert (head + rest)[i] == rest[i - |head|];
        }
      }
    }
  }

  /** `.map(k => k.trim()).filter(k => k.length > 0)` over split pieces. */
  function TrimNonEmpty(pieces: seq<string>): seq<string> {
    FlatMap(pieces, Kept)
  }

  lemma TrimNonEmptySingle(piece: string)
    ensures TrimNonEmpty([piece]) == Kept(piece)
  {
    var ps := [piece];
    assert ps[0] == piece && ps[1..] == [];
    assert FlatMap(ps[1..], Kept) == [];
    assert FlatMap(ps, Kept) == Kept(piece) + [];
  }

  lemma TrimNonEmptyAppend(a: seq<string>, b: seq<string>)
    ensures TrimNonEmpty(a + b) == TrimNonEmpty(a) + TrimNonEmpty(b)
  {
    FlatMapAppend(a, b, Kept);
  }

  /** What survives trimming and filtering is trimmed and non-empty, and
      holds no comma when no piece did; there is at most one per piece. */
  lemma TrimNonEmptyClean(pieces: seq<string>)
    requires forall j :: 0 <= j < |pieces| ==> ',' !in pieces[j]
    ensures |TrimNonEmpty(pieces)| <= |pieces|
    ensures forall i :: 0 <= i < |TrimNonEmpty(pieces)| ==> CleanKeyword(TrimNonEmpty(pieces)[i])
  {
    forall j | 0 <= j < |pieces|
      ensures forall i :: 0 <= i < |Kept(pieces[j])| ==> CleanKeyword(Kept(pieces[j])[i])
    {
      KeptClean(pieces[j]);
    }
    FlatMapEach(pieces, Kept, CleanKeyword);
  }

  /** `input.split(',').map(k => k.trim()).filter(k => k.length > 0)`:
      clean keywords, at most one per comma plus one. */
  function ParseList(input: string): (r: seq<string>)
    ensures forall i :: 0 <= i < |r| ==> CleanKeyword(r[i])
    ensures |r| <= Count(input, ',') + 1
  {
    var pieces := Split(input, ',');
    assert forall j :: 0 <= j < |pieces| ==> pieces[j] in pieces;
    TrimNonEmptyClean(pieces);
    TrimNonEmpty(pieces)
  }

  /** Parsing keeps input order: the keywords of `a,b` are those of `a`
      followed by those of `b`. */
  lemma ParseListAround(a: string, b: string)
    ensures ParseList(a + "," + b) == ParseList(a) + ParseList(b)
  {
    SplitAround(a, ',', b);
    TrimNonEmptyAppend(Split(a, ','), Split(b, ','));
  }

  /** A comma-free input is one keyword, or none when it is all whitespace. */
  lemma ParseListSingle(s: string)
    requires ',' !in s
    ensures ParseList(s) == if Trim(s) == [] then [] else [Trim(s)]
  {
    SplitNoSeparator(s, ',');
    TrimNonEmptySingle(s);
  }

  /** Input made only of commas and whitespace gives no keywords. */
  lemma {:induction false} ParseListBlank(s: string)
    requires forall k :: 0 <= k < |s| ==> s[k] == ',' || IsWhitespace(s[k])
    ensures ParseList(s) == []
  {
    var pieces := Split(s, ',');
    BlankPieces(s);
    TrimNonEmptyBlank(pieces);
  }

  lemma {:induction false} BlankPieces(s: string)
    requires forall k :: 0 <= k < |s| ==> s[k] == ',' || IsWhitespace(s[k])
    ensures forall p :: p in Split(s, ',') ==> forall k :: 0 <= k < |p| ==> IsWhitespace(p[k])
  {
    if s != [] {
      BlankPieces(s[1..]);
    }
  }

  lemma {:induction false} TrimNonEmptyBlank(pieces: seq<string>)
    requires forall p :: p in pieces ==> forall k :: 0 <= k < |p| ==> IsWhitespace(p[k])
    ensures TrimNonEmpty(pieces) == []
  {
    if pieces != [] {
      assert pieces[0] in pieces;
      TrimNonEmptyBlank(pieces[1..]);
    }
  }

  /** Keywords as `findLeads` joins them into its prompt parse back to the
      same list, when each is clean. */
  lemma {:induction false} ParseListJoin(ks: seq<string>)
    requires forall i :: 0 <= i < |ks| ==> CleanKeyword(ks[i])
    ensures ParseList(Join(ks, ", ")) == ks
  {
    if ks == [] {
      ParseListSingle("");
    } else if |ks| == 1 {
      ParseListClean(ks[0]);
    } else {
      assert Join(ks, ", ") == ks[0] + ", " + Join(ks[1..], ", ");
      ParseListCons(ks[0], Join(ks[1..], ", "));
      ParseListJoin(ks[1..]);
      assert [ks[0]] + ks[1..] == ks;
    }
  }

  /** A clean keyword in front of ", " parses to itself followed by the
      rest. */
  lemma ParseListCons(k: string, rest: string)
    requires CleanKeyword(k)
    ensures ParseList(k + ", " + rest) == [k] + ParseList(rest)
  {
    assert k + ", " + rest == k + "," + (" " + rest);
    ParseListAround(k, " " + rest);
    ParseListSpace(rest);
    ParseListClean(k);
  }

  /** A clean keyword parses to itself. */
  lemma ParseListClean(k: string)
    requires CleanKeyword(k)
    ensures ParseList(k) == [k]
  {
    TrimClean(k);
    ParseListSingle(k);
  }

  /** A space before the first piece is trimmed away. */
  lemma ParseListSpace(s: string)
    ensures ParseList(" " + s) == ParseList(s)
  {
    var t := Split(s, ',');
    var u := Split(" " + s, ',');
    assert (" " + s)[1..] == s;
    assert u == [" " + t[0]] + t[1..];
    TrimLeadingSpace(' ', t[0]);
    assert t == [t[0]] + t[1..];
    TrimNonEmptyAppend([" " + t[0]], t[1..]);
    TrimNonEmptyAppend([t[0]], t[1..]);
    TrimNonEmptySingle(" " + t[0]);
    TrimNonEmptySingle(t[0]);
  }

  /** `handleSubmit`: no submission when the name or niche is empty or no
      keyword remains; otherwise name and niche as typed, the location or
      "Global", and both keyword lists parsed the same way. An empty exclude
      list never blocks submission. */
  function HandleSubmit(form: Form): (r: Option<FileData>)
    ensures r.None? <==> form.name == "" || form.niche == "" || ParseList(form.keywordsInput) == []
    ensures r.Some? ==>
      && r.value.name == form.name && r.value.niche == form.niche
      && r.value.location == (if form.location == "" then "Global" else form.location)
      && r.value.keywords == ParseList(form.keywordsInput)
      && r.value.excludeKeywords == ParseList(form.excludeKeywordsInput)
    ensures r.Some? ==> r.value.keywords != []
    ensures r.Some? ==> forall i :: 0 <= i < |r.value.keywords| ==> CleanKeyword(r.value.keywords[i])
  {
    var keywords := ParseList(form.keywordsInput);
    var excludeKeywords := ParseList(form.excludeKeywordsInput);
    if form.name == "" || form.niche == "" || |keywords| == 0 then None
    else
      Some(FileData(
        name := form.name,
        keywords := keywords,
        excludeKeywords := excludeKeywords,
        niche := form.niche,
        location := if form.location == "" then "Global" else form.location))
  }
}
