/**
 * Parsing of the `images` column: a `|`-delimited string of which only the
 * pieces that contain "http" are kept as photo URLs.
 */
module Photos {
  import opened Wrappers
  import opened Seqs

  const Separator: char := '|'
  const UrlMarker: string := "http"

  /** Number of occurrences of `c` in `s`. */
  function Occurrences(s: string, c: char): nat
  {
    if s == [] then 0 else (if s[0] == c then 1 else 0) + Occurrences(s[1..], c)
  }

  /**
   * `s.split("|")`: the pieces between separators, including empty ones;
   * the empty string gives one empty piece.
   */
  function Split(s: string): (pieces: seq<string>)
    ensures |pieces| == Occurrences(s, Separator) + 1
    ensures forall k :: 0 <= k < |pieces| ==> Separator !in pieces[k]
  {
    if s == [] then [[]]
    else if s[0] == Separator then [[]] + Split(s[1..])
    else
      var rest := Split(s[1..]);
      [[s[0]] + rest[0]] + rest[1..]
  }

  /** `pieces.join("|")`, the inverse of `Split`. */
  function Join(pieces: seq<string>): string
    requires |pieces| > 0
  {
    if |pieces| == 1 then pieces[0] else pieces[0] + [Separator] + Join(pieces[1..])
  }

  /** Splitting and joining back gives the original string. */
  lemma {:induction false} JoinSplit(s: string)
    ensures Join(Split(s)) == s
  {
    if s != [] {
      JoinSplit(s[1..]);
      var rest := Split(s[1..]);
      if s[0] == Separator {
        assert Split(s)[1..] == rest;
      } else {
        var pieces := Split(s);
        assert pieces[1..] == rest[1..];
        if |rest| > 1 {
          assert Join(pieces) == [s[0]] + rest[0] + [Separator] + Join(rest[1..]);
        }
      }
      assert s == [s[0]] + s[1..];
    }
  }

  /** Joining pieces free of separators and splitting again gives the pieces back. */
  lemma {:induction false} SplitJoin(pieces: seq<string>)
    requires |pieces| > 0
    requires forall k :: 0 <= k < |pieces| ==> Separator !in pieces[k]
    ensures Split(Join(pieces)) == pieces
  {
    if |pieces| == 1 {
      SplitPiece(pieces[0]);
    } else {
      SplitJoin(pieces[1..]);
      SplitPieceThenSeparator(pieces[0], Join(pieces[1..]));
      assert [pieces[0]] + pieces[1..] == pieces;
    }
  }

  lemma {:induction false} SplitPiece(p: string)
    requires Separator !in p
    ensures Split(p) == [p]
  {
    if p != [] {
      SplitPiece(p[1..]);
      assert [p[0]] + p[1..] == p;
    }
  }

  lemma {:induction false} SplitPieceThenSeparator(p: string, t: string)
    requires Separator !in p
    ensures Split(p + [Separator] + t) == [p] + Split(t)
  {
    if p == [] {
      assert p + [Separator] + t == [Separator] + t;
    } else {
      var s := p + [Separator] + t;
      assert s[0] == p[0] && s[1..] == p[1..] + [Separator] + t;
      SplitPieceThenSeparator(p[1..], t);
      assert [p[0]] + p[1..] == p;
    }
  }

  /** `url.includes("http")` */
  predicate IsPhotoUrl(piece: string)
    ensures IsPhotoUrl(piece) ==> |piece| >= |UrlMarker|
  {
    Contains(piece, UrlMarker)
  }

  /**
   * `images ? images.split("|").filter((url) => url.includes("http")) : []`:
   * a missing or empty `images` gives no photos.
   */
  function ParsePhotos(images: Option<string>): (photos: seq<string>)
    ensures images.None? || images == Some([]) ==> photos == []
    ensures forall k :: 0 <= k < |photos| ==> IsPhotoUrl(photos[k]) && Separator !in photos[k]
    ensures images.Some? ==> |photos| <= Occurrences(images.value, Separator) + 1
  {
    match images
    case None => []
    case Some(s) => if s == [] then [] else Filter(Split(s), IsPhotoUrl)
  }

  /**
   * The photos are, in their original order, exactly the `|`-separated
   * pieces of `images` that contain "http", each as often as it occurs.
   */
  lemma PhotosArePieces(s: string)
    ensures IsSubsequence(ParsePhotos(Some(s)), Split(s))
    ensures forall piece :: piece in ParsePhotos(Some(s)) <==> piece in Split(s) && IsPhotoUrl(piece)
    ensures forall piece ::
      multiset(ParsePhotos(Some(s)))[piece] == (if IsPhotoUrl(piece) then multiset(Split(s))[piece] else 0)
  {
    if s == [] {
      assert Split(s) == [[]];
      assert !IsPhotoUrl([]);
    } else {
      FilterIsSubsequence(Split(s), IsPhotoUrl);
    }
  }

  lemma JoinExample()
    ensures Join(["http://a", "http://b", "notaurl"]) == "http://a|http://b|notaurl"
  {
    var a, b, c := "http://a", "http://b", "notaurl";
    assert Join([c]) == c;
    assert [b, c][1..] == [c];
    assert Join([b, c]) == b + [Separator] + c;
    assert [a, b, c][1..] == [b, c];
    assert Join([a, b, c]) == a + [Separator] + (b + [Separator] + c);
  }

  lemma NoMarkerInNotaurl()
    ensures !IsPhotoUrl("notaurl")
  {
    var c := "notaurl";
    forall i | 0 <= i <= |c| ensures !(UrlMarker <= c[i..]) {
      if i < |c| {
        assert c[i..][0] == c[i] != 'h';
      }
    }
  }

  lemma SplitExample()
    ensures Split("http://a|http://b|notaurl") == ["http://a", "http://b", "notaurl"]
  {
    JoinExample();
    SplitJoin(["http://a", "http://b", "notaurl"]);
  }

  lemma FilterExampleLast()
    ensures Filter(["notaurl"], IsPhotoUrl) == []
  {
    NoMarkerInNotaurl();
    var empty: seq<string> := [];
    assert ["notaurl"][1..] == empty;
  }

  lemma FilterExampleTail()
    ensures Filter(["http://b", "notaurl"], IsPhotoUrl) == ["http://b"]
  {
    ContainsAt("http://b", UrlMarker, 0);
    FilterExampleLast();
    assert ["http://b", "notaurl"][1..] == ["notaurl"];
  }

  lemma FilterExample()
    ensures Filter(["http://a", "http://b", "notaurl"], IsPhotoUrl) == ["http://a", "http://b"]
  {
    ContainsAt("http://a", UrlMarker, 0);
    FilterExampleTail();
    assert ["http://a", "http://b", "notaurl"][1..] == ["http://b", "notaurl"];
  }

  /** The example `"http://a|http://b|notaurl"` keeps the two http entries. */
  lemma ParseExample()
    ensures ParsePhotos(Some("http://a|http://b|notaurl")) == ["http://a", "http://b"]
  {
    SplitExample();
    FilterExample();
  }
}
