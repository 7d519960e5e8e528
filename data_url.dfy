/** The data-URL codec of App.tsx: the printer `data:<mime>;base64,<data>`
    and its parser `dataUrlToImageBase64`, with the predicate `isValidDataUrl`.
    Regular expressions are read on URLs without line breaks, where `.`
    matches every character. */
module DataUrl {
  import opened Wrappers
  import opened Strings
  import opened Types

  const Scheme := "data:"
  const Base64Marker := ";base64"

  /** The template `data:${mimeType};base64,${data}` (App.tsx:239, geminiService.ts:173). */
  function Format(img: ImageBase64): (url: string)
    ensures StartsWith(url, Scheme)
  {
    Scheme + img.mimeType + Base64Marker + "," + img.data
  }

  /** `head.match(/data:(.*)/)`: the text after the first `data:`. */
  function MatchAfterScheme(head: string): (m: Option<string>)
    ensures StartsWith(head, Scheme) ==> m == Some(head[|Scheme|..])
  {
    match IndexOf(head, Scheme, 0)
    case None => None
    case Some(i) => Some(head[i + |Scheme|..])
  }

  /** `head.match(/data:(.*?);base64/)`: the text between the first `data:` and
      the first `;base64` after it (the lazy group stops at the earliest one). */
  function MatchMime(head: string): Option<string> {
    match IndexOf(head, Scheme, 0)
    case None => None
    case Some(i) =>
      match IndexOf(head, Base64Marker, i + |Scheme|)
      case None => None
      case Some(j) => Some(head[i + |Scheme|..j])
  }

  /** `dataUrlToImageBase64` (App.tsx:14-43). */
  function Parse(url: string): (r: Option<ImageBase64>)
    ensures !StartsWith(url, Scheme) ==> r == None
    ensures Count(url, ',') != 1 ==> r == None
  {
    if url == [] || !StartsWith(url, Scheme) then None
    else
      var parts := Split(url, ',');
      if |parts| != 2 then None
      else if !Contains(parts[0], Base64Marker) then
        match MatchAfterScheme(parts[0])
        case Some(mime) => Some(ImageBase64(parts[1], mime))
        case None => None
      else
        match MatchMime(parts[0])
        case Some(mime) => Some(ImageBase64(parts[1], mime))
        case None => None
  }

  /** `isValidDataUrl` (App.tsx:46-48). */
  predicate IsValid(url: string) {
    StartsWith(url, Scheme) && Contains(url, Base64Marker + ",")
  }

  /** No character of `data:` is `;`, so `;base64` never starts inside the scheme. */
  lemma MarkerAfterScheme(head: string, j: nat)
    requires StartsWith(head, Scheme) && OccursAt(head, Base64Marker, j)
    ensures j >= |Scheme|
  {
    assert forall i :: 0 <= i < |Scheme| ==> head[i] != ';' by {
      assert head[..|Scheme|] == Scheme;
    }
    assert head[j] == ';' by {
      assert head[j..j + |Base64Marker|][0] == head[j];
    }
  }

  /** In a URL of the form `data:<head>,<data>` both regular expressions match,
      so the `null` returns at App.tsx:31-32 and App.tsx:37-40 cannot happen. */
  lemma HeadMatches(head: string)
    requires StartsWith(head, Scheme)
    ensures MatchAfterScheme(head).Some?
    ensures Contains(head, Base64Marker) ==> MatchMime(head).Some?
  {
    IndexOfIs(head, Scheme, 0, 0);
    if Contains(head, Base64Marker) {
      var j := IndexOf(head, Base64Marker, 0).value;
      MarkerAfterScheme(head, j);
      IndexOfIs(head, Base64Marker, |Scheme|, j);
    }
  }

  /** The scheme has no comma, so the text before the only comma still starts with it. */
  lemma HeadKeepsScheme(url: string, k: nat)
    requires StartsWith(url, Scheme) && k < |url| && url[k] == ','
    ensures k >= |Scheme| && StartsWith(url[..k], Scheme)
  {
    assert forall i :: 0 <= i < |Scheme| ==> url[i] != ',' by {
      assert url[..|Scheme|] == Scheme;
    }
  }

  /** The parser accepts exactly the strings that start with `data:` and hold
      exactly one comma (App.tsx:15-23, App.tsx:24-42). */
  lemma ParseDefined(url: string)
    ensures Parse(url).Some? <==> StartsWith(url, Scheme) && Count(url, ',') == 1
  {
    if StartsWith(url, Scheme) && Count(url, ',') == 1 {
      var k := SplitOnce(url, ',');
      HeadKeepsScheme(url, k);
      HeadMatches(url[..k]);
    }
  }

  /** A successful parse returns, as data, exactly the text after the comma. */
  lemma ParseData(url: string)
    requires Parse(url).Some?
    ensures exists k :: 0 <= k < |url| && url[k] == ',' && Parse(url).value.data == url[k + 1..]
  {
    ParseDefined(url);
    var k := SplitOnce(url, ',');
  }

  /** Without `;base64` in the text before the comma, the media type is all
      of that text after `data:` and the data is the text after the comma
      (App.tsx:24-30): `data:text/plain,hi` gives `hi` as `text/plain`. */
  lemma ParseUnmarkedHead(url: string) returns (k: nat)
    requires StartsWith(url, Scheme) && Count(url, ',') == 1
    requires !Contains(Split(url, ',')[0], Base64Marker)
    ensures |Scheme| <= k < |url| && url[k] == ',' && ',' !in url[..k]
    ensures Parse(url) == Some(ImageBase64(url[k + 1..], url[|Scheme|..k]))
  {
    k := SplitOnce(url, ',');
    HeadKeepsScheme(url, k);
    assert url[..k][|Scheme|..] == url[|Scheme|..k];
  }

  /** The `;base64,` that makes a URL valid sits right before its only comma. */
  lemma ValidHeadHasMarker(url: string, k: nat)
    requires Contains(url, Base64Marker + ",")
    requires k < |url| && url[k] == ',' && ',' !in url[..k] && ',' !in url[k + 1..]
    ensures k >= |Base64Marker| && OccursAt(url[..k], Base64Marker, k - |Base64Marker|)
  {
    var p := Base64Marker + ",";
    var c := IndexOf(url, p, 0).value;
    var e := c + |Base64Marker|;
    assert url[c..c + |p|] == p;
    assert url[e] == url[c..c + |p|][|Base64Marker|] == ',';
    assert forall i :: 0 <= i < k ==> url[i] != ',' by {
      assert forall i :: 0 <= i < k ==> url[i] == url[..k][i];
    }
    assert forall i :: k < i < |url| ==> url[i] != ',' by {
      assert forall i :: k < i < |url| ==> url[i] == url[k + 1..][i - k - 1];
    }
    assert e == k;
    assert p[..|Base64Marker|] == Base64Marker;
    assert url[c..k] == url[c..c + |p|][..|Base64Marker|];
    assert url[..k][c..k] == url[c..k];
  }

  /** The media type the lazy expression captures from a head that starts with
      `data:` and holds `;base64`: the text up to the first marker after the scheme. */
  lemma MimeOfHead(head: string) returns (j: nat)
    requires StartsWith(head, Scheme) && Contains(head, Base64Marker)
    ensures |Scheme| <= j && OccursAt(head, Base64Marker, j)
    ensures forall i: nat :: |Scheme| <= i < j ==> !OccursAt(head, Base64Marker, i)
    ensures MatchMime(head) == Some(head[|Scheme|..j])
  {
    HeadMatches(head);
    IndexOfIs(head, Scheme, 0, 0);
    j := IndexOf(head, Base64Marker, |Scheme|).value;
  }

  /** How the parser reads a URL with a scheme whose head holds the marker. */
  lemma ParseMarkedHead(url: string, head: string, data: string)
    requires StartsWith(url, Scheme) && Split(url, ',') == [head, data]
    requires Contains(head, Base64Marker)
    ensures Parse(url) == if MatchMime(head).Some? then Some(ImageBase64(data, MatchMime(head).value)) else None
  {
  }

  /** An occurrence inside the head is an occurrence inside the URL and back. */
  lemma OccursInHead(url: string, k: nat, i: nat)
    requires k <= |url| && i + |Base64Marker| <= k
    ensures OccursAt(url[..k], Base64Marker, i) <==> OccursAt(url, Base64Marker, i)
  {
    assert url[..k][i..i + |Base64Marker|] == url[i..i + |Base64Marker|];
  }

  /** The head before the only comma of a valid URL keeps the scheme and the marker. */
  lemma ValidHead(url: string) returns (k: nat)
    requires IsValid(url) && Count(url, ',') == 1
    ensures k < |url| && url[k] == ','
    ensures Split(url, ',') == [url[..k], url[k + 1..]]
    ensures StartsWith(url[..k], Scheme) && Contains(url[..k], Base64Marker)
  {
    k := SplitOnce(url, ',');
    HeadKeepsScheme(url, k);
    ValidHeadHasMarker(url, k);
  }

  /** Every string the predicate accepts that holds one comma parses, with the
      data after the comma and, as media type, the text between `data:` and the
      first `;base64` after it (App.tsx:46-48, 19-42). */
  lemma ValidParses(url: string) returns (k: nat, j: nat)
    requires IsValid(url) && Count(url, ',') == 1
    ensures k < |url| && url[k] == ','
    ensures |Scheme| <= j && OccursAt(url, Base64Marker, j)
    ensures forall i: nat :: |Scheme| <= i < j ==> !OccursAt(url, Base64Marker, i)
    ensures Parse(url) == Some(ImageBase64(url[k + 1..], url[|Scheme|..j]))
  {
    k := ValidHead(url);
    var head := url[..k];
    j := MimeOfHead(head);
    ParseMarkedHead(url, head, url[k + 1..]);
    assert head[|Scheme|..j] == url[|Scheme|..j];
    OccursInHead(url, k, j);
    forall i: nat | |Scheme| <= i < j
      ensures !OccursAt(url, Base64Marker, i)
    {
      OccursInHead(url, k, i);
    }
  }

  /** Every URL built by the template is accepted by `isValidDataUrl`. */
  lemma FormatIsValid(img: ImageBase64)
    ensures IsValid(Format(img))
  {
    var url := Format(img);
    var p := Base64Marker + ",";
    var at := |Scheme| + |img.mimeType|;
    assert url[at..at + |p|] == p;
    assert OccursAt(url, p, at);
  }

  /** A printed URL whose parts hold no comma splits back into the head the
      template wrote and the data. */
  lemma FormatSplits(img: ImageBase64)
    requires ',' !in img.mimeType && ',' !in img.data
    ensures Split(Format(img), ',') == [Scheme + img.mimeType + Base64Marker, img.data]
  {
    var head := Scheme + img.mimeType + Base64Marker;
    var url := Format(img);
    assert url == head + "," + img.data;
    assert ',' !in head;
    assert url[..|head|] == head;
    assert url[|head| + 1..] == img.data;
    SplitAtFirst(url, ',', |head|);
    SplitNoSeparator(img.data, ',');
  }

  /** Inside `m`, a string free of `;base64`, no occurrence of `;base64` starts. */
  lemma NoMarkerInsideMime(m: string, j: nat)
    requires !Contains(m, Base64Marker)
    requires |Scheme| <= j && j + |Base64Marker| <= |Scheme| + |m|
    ensures !OccursAt(Scheme + m + Base64Marker, Base64Marker, j)
  {
    var head := Scheme + m + Base64Marker;
    assert !OccursAt(m, Base64Marker, j - |Scheme|);
    assert m[j - |Scheme|..j - |Scheme| + |Base64Marker|] == head[j..j + |Base64Marker|];
  }

  /** No occurrence of `;base64` straddles the end of `m`: its `;` would have
      to match a later character of `;base64`. */
  lemma NoMarkerAcrossBoundary(m: string, j: nat)
    requires j < |Scheme| + |m| < j + |Base64Marker|
    ensures !OccursAt(Scheme + m + Base64Marker, Base64Marker, j)
  {
    var head := Scheme + m + Base64Marker;
    var at := |Scheme| + |m|;
    assert head[at] == ';';
    MismatchAt(head, Base64Marker, j, at - j);
  }

  /** Before the `;base64` the template wrote, no other one starts. */
  lemma NoEarlierMarker(m: string)
    requires !Contains(m, Base64Marker)
    ensures forall j: nat :: |Scheme| <= j < |Scheme| + |m| ==> !OccursAt(Scheme + m + Base64Marker, Base64Marker, j)
  {
    forall j: nat | |Scheme| <= j < |Scheme| + |m|
      ensures !OccursAt(Scheme + m + Base64Marker, Base64Marker, j)
    {
      if j + |Base64Marker| <= |Scheme| + |m| {
        NoMarkerInsideMime(m, j);
      } else {
        NoMarkerAcrossBoundary(m, j);
      }
    }
  }

  /** With no earlier occurrence, the search from the scheme's end stops at the template's `;base64`. */
  lemma TemplateMarkerFound(m: string)
    requires forall j: nat :: |Scheme| <= j < |Scheme| + |m| ==> !OccursAt(Scheme + m + Base64Marker, Base64Marker, j)
    ensures IndexOf(Scheme + m + Base64Marker, Base64Marker, |Scheme|) == Some(|Scheme| + |m|)
  {
    var head := Scheme + m + Base64Marker;
    var at := |Scheme| + |m|;
    assert head[at..] == Base64Marker;
    IndexOfIs(head, Base64Marker, |Scheme|, at);
  }

  /** In `data:<m>;base64`, with no `;base64` inside `m`, the first `;base64`
      after the scheme is the one the template wrote. */
  lemma FirstMarkerIsTemplates(m: string)
    requires !Contains(m, Base64Marker)
    ensures IndexOf(Scheme + m + Base64Marker, Base64Marker, |Scheme|) == Some(|Scheme| + |m|)
  {
    NoEarlierMarker(m);
    TemplateMarkerFound(m);
  }

  /** A media type with no `,` and no `;base64`, and data with no `,`, survive
      printing and parsing unchanged (App.tsx:35-42 against App.tsx:239). */
  lemma RoundTrip(img: ImageBase64)
    requires ',' !in img.mimeType && ',' !in img.data
    requires !Contains(img.mimeType, Base64Marker)
    ensures Parse(Format(img)) == Some(img)
  {
    var head := Scheme + img.mimeType + Base64Marker;
    FormatSplits(img);
    FirstMarkerIsTemplates(img.mimeType);
    IndexOfIs(head, Scheme, 0, 0);
    assert Contains(head, Base64Marker) by {
      var at := |Scheme| + |img.mimeType|;
      assert head[at..] == Base64Marker;
      assert OccursAt(head, Base64Marker, at);
    }
    assert head[|Scheme|..|Scheme| + |img.mimeType|] == img.mimeType;
  }
}
