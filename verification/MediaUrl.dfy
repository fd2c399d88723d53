/** Turning the signed picture and video addresses of a note page into permanent ones. */
module MediaUrl {
  import opened Collections
  import opened Dedup
  import opened Text

  const CDN := "xhscdn.com"
  const PERMANENT_HOST := "sns-img-qc.xhscdn.com"
  const PERMANENT := "https://sns-img-qc.xhscdn.com"
  const VIDEO_HOST := "sns-video"
  const MP4 := ".mp4"

  datatype Kind = Image | Video
  datatype Media = Media(kind: Kind, fileId: string, segment: string, url: string)

  // ---- taking an address apart ----

  const STOPS := {'/', '?', '#'}

  predicate IsSchemeChar(c: char) {
    'a' <= c <= 'z' || 'A' <= c <= 'Z' || '0' <= c <= '9' || c == '+' || c == '-' || c == '.'
  }

  /** The length of the scheme with its colon, if there is a valid one. */
  function SchemeLength(url: string): (n: nat)
    ensures n <= |url|
  {
    var n := Until(url, {':'});
    if 0 < n < |url| && ('a' <= url[0] <= 'z' || 'A' <= url[0] <= 'Z') && (forall i | 0 <= i < n :: IsSchemeChar(url[i])) then n + 1 else 0
  }

  datatype Location = Location(host: string, path: string)

  /** The path in front of the query and the fragment. */
  function PathOf(tail: string): string { tail[..Until(tail, {'?', '#'})] }

  /** The host behind two slashes, if they are there, and the path. */
  function HostAndPath(rest: string): Location {
    if "//" <= rest then
      var n := Until(rest[2..], STOPS);
      Location(rest[2..][..n], PathOf(rest[2..][n..]))
    else Location("", PathOf(rest))
  }

  function UrlSplit(url: string): Location { HostAndPath(url[SchemeLength(url)..]) }

  /** The non-empty pieces between slashes. */
  function Parts(path: string): seq<string>
    decreases |path|
  {
    if path == "" then []
    else if path[0] == '/' then Parts(path[1..])
    else var n := Until(path, {'/'}); [path[..n]] + Parts(path[n..])
  }

  /** Everything behind the last slash. */
  function AfterLastSlash(path: string): string {
    if '/' in path then var n := Until(path, {'/'}); AfterLastSlash(path[n + 1..]) else path
  }

  predicate EndsWith(s: string, suffix: string) { |s| >= |suffix| && s[|s| - |suffix|..] == suffix }

  function WithoutSuffix(s: string, suffix: string): string { if EndsWith(s, suffix) then s[..|s| - |suffix|] else s }

  // ---- normalising ----

  predicate Excluded(url: string) {
    Contains(url, "sns-avatar") || Contains(url, "picasso-static") || Contains(url, "fe-video-qc")
  }

  predicate IsIdChar(c: char) {
    'a' <= c <= 'z' || 'A' <= c <= 'Z' || '0' <= c <= '9' || c == '_' || c == '-'
  }

  predicate IsFileId(s: string) { |s| >= 16 && forall i | 0 <= i < |s| :: IsIdChar(s[i]) }

  predicate IsDigits(s: string) { s != "" && forall i | 0 <= i < |s| :: '0' <= s[i] <= '9' }

  predicate IsSignature(s: string) { |s| == 32 && forall i | 0 <= i < |s| :: '0' <= s[i] <= '9' || 'a' <= s[i] <= 'f' }

  /** A path segment proper: not an issue time and not a signature. */
  predicate IsSegment(s: string) { s != "" && !IsDigits(s) && !IsSignature(s) }

  function BeforeVariant(s: string): string { s[..Until(s, {'!'})] }

  function PermanentUrl(segment: string, fileId: string): string {
    if segment == "" then PERMANENT + ['/'] + fileId else PERMANENT + ['/'] + segment + ['/'] + fileId
  }

  function ImageOf(segment: string, fileId: string): Media { Media(Image, fileId, segment, PermanentUrl(segment, fileId)) }

  function FileIdOf(parts: seq<string>): string
    requires parts != []
  {
    BeforeVariant(parts[|parts| - 1])
  }

  function SegmentOf(parts: seq<string>): string {
    if |parts| >= 2 && IsSegment(parts[|parts| - 2]) then parts[|parts| - 2] else ""
  }

  function ImageAt(parts: seq<string>): Option<Media> {
    if parts == [] || !IsFileId(FileIdOf(parts)) then None else Some(ImageOf(SegmentOf(parts), FileIdOf(parts)))
  }

  predicate IsVideo(at: Location) { Contains(at.host, VIDEO_HOST) && EndsWith(at.path, MP4) }

  function VideoAt(at: Location): Media {
    Media(Video, WithoutSuffix(AfterLastSlash(at.path), MP4), "", "https://" + at.host + at.path)
  }

  function Normalize(url: string): Option<Media> {
    if !Contains(url, CDN) || Excluded(url) then None
    else
      var at := UrlSplit(url);
      if IsVideo(at) then Some(VideoAt(at)) else ImageAt(Parts(at.path))
  }

  // ---- taking apart what was put together ----

  lemma SchemeInFront(scheme: string, rest: string)
    requires scheme == "http" || scheme == "https"
    ensures UrlSplit(scheme + ":" + rest) == HostAndPath(rest)
  {
    var url, n := scheme + ":" + rest, |scheme|;
    assert url == scheme + ([':'] + rest);
    UntilAt(scheme, [':'] + rest, {':'});
    assert forall i | 0 <= i < n :: url[i] == scheme[i] && IsSchemeChar(scheme[i]);
    assert url[n + 1..] == rest;
  }

  lemma PathInFront(path: string, query: string)
    requires Free(path, {'?', '#'}) && (query == "" || query[0] in {'?', '#'})
    ensures PathOf(path + query) == path
  {
    UntilAt(path, query, {'?', '#'});
  }

  lemma HostInFront(host: string, tail: string)
    requires Free(host, STOPS) && (tail == "" || tail[0] in STOPS)
    ensures HostAndPath("//" + host + tail) == Location(host, PathOf(tail))
  {
    var rest := "//" + host + tail;
    assert rest[2..] == host + tail;
    UntilAt(host, tail, STOPS);
    assert rest[2..][..|host|] == host && rest[2..][|host|..] == tail;
  }

  lemma SplitOfUrl(scheme: string, host: string, path: string, query: string)
    requires scheme == "http" || scheme == "https"
    requires Free(host, STOPS) && Free(path, {'?', '#'})
    requires (path == "" || path[0] == '/') && (query == "" || query[0] in {'?', '#'})
    ensures UrlSplit(scheme + "://" + host + path + query) == Location(host, path)
  {
    assert scheme + "://" + host + path + query == scheme + ":" + ("//" + host + (path + query));
    SchemeInFront(scheme, "//" + host + (path + query));
    HostInFront(host, path + query);
    PathInFront(path, query);
  }

  lemma SplitOfHttps(host: string, path: string, query: string)
    requires Free(host, STOPS) && Free(path, {'?', '#'})
    requires (path == "" || path[0] == '/') && (query == "" || query[0] in {'?', '#'})
    ensures UrlSplit("https://" + host + path + query) == Location(host, path)
  {
    SplitOfUrl("https", host, path, query);
    assert "https" + "://" == "https://";
  }

  lemma PartInFront(part: string, rest: string)
    requires part != "" && Free(part, {'/'}) && (rest == "" || rest[0] == '/')
    ensures Parts(part + rest) == [part] + Parts(rest)
  {
    UntilAt(part, rest, {'/'});
    assert (part + rest)[..|part|] == part && (part + rest)[|part|..] == rest;
    assert (part + rest)[0] == part[0];
  }

  lemma PartsOfOne(part: string, rest: string)
    requires part != "" && Free(part, {'/'}) && (rest == "" || rest[0] == '/')
    ensures Parts(['/'] + part + rest) == [part] + Parts(rest)
  {
    assert (['/'] + part + rest)[1..] == part + rest;
    PartInFront(part, rest);
  }

  /** A slash always parts: what is in front of it and what is behind are taken apart on their own. */
  lemma {:induction false} PartsApart(a: string, b: string)
    ensures Parts(a + ['/'] + b) == Parts(a) + Parts(b)
    decreases |a|
  {
    var path := a + ['/'] + b;
    if a == "" {
      assert path[1..] == b;
    } else if a[0] == '/' {
      assert path[1..] == a[1..] + ['/'] + b;
      PartsApart(a[1..], b);
    } else {
      var n := Until(a, {'/'});
      var part, more := a[..n], a[n..];
      assert a == part + more;
      PartInFront(part, more);
      assert path == part + (more + ['/'] + b);
      assert (more + ['/'] + b)[0] == '/';
      PartInFront(part, more + ['/'] + b);
      PartsApart(more, b);
    }
  }

  predicate IsPart(s: string) { s != "" && Free(s, STOPS) }

  predicate AreParts(dirs: seq<string>) { forall i | 0 <= i < |dirs| :: IsPart(dirs[i]) }

  function Joined(dirs: seq<string>): string {
    if dirs == [] then "" else ['/'] + dirs[0] + Joined(dirs[1..])
  }

  lemma {:induction false} PartsOfJoined(dirs: seq<string>)
    requires AreParts(dirs)
    ensures Parts(Joined(dirs)) == dirs && Free(Joined(dirs), {'?', '#'}) && (Joined(dirs) == "" || Joined(dirs)[0] == '/')
  {
    if dirs != [] {
      PartsOfJoined(dirs[1..]);
      PartsOfOne(dirs[0], Joined(dirs[1..]));
      assert dirs == [dirs[0]] + dirs[1..];
      forall i | 0 <= i < |Joined(dirs)| ensures Joined(dirs)[i] !in {'?', '#'} {
        if 1 <= i <= |dirs[0]| { assert Joined(dirs)[i] == dirs[0][i - 1]; }
      }
    }
  }

  /** Every piece of a path lies in it, without slashes. */
  lemma {:induction false} PartsWithin(path: string, i: nat) returns (before: string, after: string)
    requires i < |Parts(path)|
    ensures path == before + Parts(path)[i] + after && Free(Parts(path)[i], {'/'}) && Parts(path)[i] != ""
    decreases |path|
  {
    if path[0] == '/' {
      before, after := PartsWithin(path[1..], i);
      before := ['/'] + before;
    } else {
      var n := Until(path, {'/'});
      if i == 0 {
        before, after := "", path[n..];
      } else {
        before, after := PartsWithin(path[n..], i - 1);
        before := path[..n] + before;
      }
    }
  }

  lemma PathWithin(tail: string) returns (after: string)
    ensures tail == PathOf(tail) + after && Free(PathOf(tail), {'?', '#'})
  {
    after := tail[Until(tail, {'?', '#'})..];
  }

  lemma FourPieces(front: string, host: string, path: string, after: string)
    ensures front + (host + (path + after)) == front + (host + path) + after
  {
  }

  lemma SlashesInFront(rest: string)
    requires "//" <= rest
    ensures rest == "//" + rest[2..]
  {
  }

  lemma SlashesWithin(rest: string) returns (after: string)
    requires "//" <= rest
    ensures var at := HostAndPath(rest);
            && rest == "//" + (at.host + at.path) + after && Free(at.host, STOPS) && Free(at.path, {'?', '#'})
            && (at.path == "" || at.path[0] == '/')
  {
    var tail := rest[2..];
    var n := Until(tail, STOPS);
    var host, behind := tail[..n], tail[n..];
    after := PathWithin(behind);
    SlashesInFront(rest);
    assert tail == host + behind;
    FourPieces("//", host, PathOf(behind), after);
  }

  lemma HostWithin(rest: string) returns (before: string, after: string)
    ensures var at := HostAndPath(rest);
            && rest == before + (at.host + at.path) + after && Free(at.host, STOPS) && Free(at.path, {'?', '#'})
            && (at.host == "" || at.path == "" || at.path[0] == '/')
  {
    if "//" <= rest {
      before := "//";
      after := SlashesWithin(rest);
    } else {
      before := "";
      after := PathWithin(rest);
      FourPieces("", "", PathOf(rest), after);
    }
  }

  lemma Regroup(url: string, n: nat, b: string, c: string, d: string)
    requires n <= |url| && url[n..] == b + c + d
    ensures url == (url[..n] + b) + c + d
  {
    assert url == url[..n] + url[n..];
  }

  /** Host and path stand together somewhere in the address. */
  lemma SplitWithin(url: string, at: Location) returns (before: string, after: string)
    requires at == UrlSplit(url)
    ensures url == before + (at.host + at.path) + after && Free(at.host, STOPS) && Free(at.path, {'?', '#'})
    ensures at.host == "" || at.path == "" || at.path[0] == '/'
  {
    var n := SchemeLength(url);
    var front;
    front, after := HostWithin(url[n..]);
    Regroup(url, n, front, at.host + at.path, after);
    before := url[..n] + front;
  }

  lemma MissingChar(text: string, part: string, c: char)
    requires c in part && c !in text
    ensures !Contains(text, part)
  {
    var i :| 0 <= i < |part| && part[i] == c;
    forall k: nat | k <= |text| ensures !OccursAt(text, part, k) {
      if k + |part| <= |text| { assert text[k + i] in text && text[k..k + |part|][i] == text[k + i]; }
    }
  }

  // ---- images ----

  lemma FileIdIsPart(fileId: string)
    requires IsFileId(fileId)
    ensures IsPart(fileId) && BeforeVariant(fileId) == fileId
  {
    UntilAt(fileId, "", {'!'});
    assert fileId + "" == fileId;
  }

  /** A mark has no slash, so it cannot reach across one. */
  lemma NotExcludedApart(a: string, b: string)
    requires !Excluded(a) && !Excluded(b)
    ensures !Excluded(a + ['/'] + b)
  {
    if Contains(a + ['/'] + b, "sns-avatar") { ContainsApart(a, '/', b, "sns-avatar"); }
    if Contains(a + ['/'] + b, "picasso-static") { ContainsApart(a, '/', b, "picasso-static"); }
    if Contains(a + ['/'] + b, "fe-video-qc") { ContainsApart(a, '/', b, "fe-video-qc"); }
  }

  lemma PieceNotExcluded(before: string, piece: string, after: string)
    requires !Excluded(before + piece + after)
    ensures !Excluded(piece)
  {
    if Contains(piece, "sns-avatar") { ContainsWithin(before, piece, after, "sns-avatar"); }
    if Contains(piece, "picasso-static") { ContainsWithin(before, piece, after, "picasso-static"); }
    if Contains(piece, "fe-video-qc") { ContainsWithin(before, piece, after, "fe-video-qc"); }
  }

  lemma PermanentIsClean()
    ensures !Excluded(PERMANENT)
  {
    assert "sns-avatar"[5] == 'v' && "picasso-static"[3] == 'a' && "fe-video-qc"[3] == 'v';
    assert 'v' !in PERMANENT && 'a' !in PERMANENT;
    MissingChar(PERMANENT, "sns-avatar", 'v');
    MissingChar(PERMANENT, "picasso-static", 'a');
    MissingChar(PERMANENT, "fe-video-qc", 'v');
  }

  lemma PermanentIsNoVideo()
    ensures !Contains(PERMANENT_HOST, VIDEO_HOST) && Free(PERMANENT_HOST, STOPS)
  {
    assert VIDEO_HOST[4] == 'v';
    MissingChar(PERMANENT_HOST, VIDEO_HOST, 'v');
  }

  lemma PermanentIsKept(segment: string, fileId: string)
    requires !Excluded(segment) && !Excluded(fileId)
    ensures !Excluded(PermanentUrl(segment, fileId)) && Contains(PermanentUrl(segment, fileId), CDN)
  {
    var url := PermanentUrl(segment, fileId);
    PermanentIsClean();
    NotExcludedApart(PERMANENT, segment);
    NotExcludedApart(if segment == "" then PERMANENT else PERMANENT + ['/'] + segment, fileId);
    assert url[..29] == PERMANENT && url[19..29] == PERMANENT[19..29];
    ContainsAt(url, CDN, 19);
  }

  /** A segment that may stand in a permanent address, or none. */
  predicate GoodSegment(s: string) { s == "" || (IsSegment(s) && Free(s, STOPS)) }

  function Pieces(segment: string, last: string): seq<string> { if segment == "" then [last] else [segment, last] }

  lemma PermanentShape(segment: string, fileId: string)
    ensures PermanentUrl(segment, fileId) == "https://" + PERMANENT_HOST + Joined(Pieces(segment, fileId)) + ""
  {
    assert "https://" + PERMANENT_HOST == PERMANENT;
    JoinedPieces(segment, fileId);
  }

  lemma JoinedPieces(segment: string, last: string)
    ensures Joined(Pieces(segment, last)) == (if segment == "" then [] else ['/'] + segment) + (['/'] + last)
  {
    assert [last][1..] == [] && [segment, last][1..] == [last];
    assert Joined([last]) == ['/'] + last;
  }

  lemma PiecesRead(dirs: seq<string>, segment: string, last: string)
    requires segment == "" ==> dirs == [] || !IsSegment(dirs[|dirs| - 1])
    requires segment != "" ==> IsSegment(segment)
    ensures var all := dirs + Pieces(segment, last); FileIdOf(all) == BeforeVariant(last) && SegmentOf(all) == segment
  {
    var all := dirs + Pieces(segment, last);
    assert all[|all| - 1] == last;
    if segment != "" {
      assert all[|all| - 2] == segment;
    } else if dirs != [] {
      assert all[|all| - 2] == dirs[|dirs| - 1];
    }
  }

  lemma PiecesAreParts(dirs: seq<string>, segment: string, last: string)
    requires AreParts(dirs) && GoodSegment(segment) && IsPart(last)
    ensures AreParts(dirs + Pieces(segment, last))
  {
    assert segment != "" ==> IsPart(segment);
  }

  lemma ImageOfPath(dirs: seq<string>, segment: string, last: string)
    requires AreParts(dirs) && GoodSegment(segment) && IsPart(last) && IsFileId(BeforeVariant(last))
    requires segment == "" ==> dirs == [] || !IsSegment(dirs[|dirs| - 1])
    ensures var path := Joined(dirs + Pieces(segment, last));
            && ImageAt(Parts(path)) == Some(ImageOf(segment, BeforeVariant(last)))
            && Free(path, {'?', '#'}) && (path == "" || path[0] == '/')
  {
    PiecesAreParts(dirs, segment, last);
    PartsOfJoined(dirs + Pieces(segment, last));
    PiecesRead(dirs, segment, last);
  }

  /** A permanent address of an image is its own normal form. */
  lemma PermanentIsNormal(segment: string, fileId: string)
    requires IsFileId(fileId) && GoodSegment(segment) && !Excluded(segment) && !Excluded(fileId)
    ensures Normalize(PermanentUrl(segment, fileId)) == Some(ImageOf(segment, fileId))
  {
    PermanentIsKept(segment, fileId);
    PermanentIsNoVideo();
    FileIdIsPart(fileId);
    ImageOfPath([], segment, fileId);
    assert [] + Pieces(segment, fileId) == Pieces(segment, fileId);
    PermanentShape(segment, fileId);
    SplitOfHttps(PERMANENT_HOST, Joined(Pieces(segment, fileId)), "");
    NormalizeImage(PermanentUrl(segment, fileId), Location(PERMANENT_HOST, Joined(Pieces(segment, fileId))));
  }

  lemma NormalizeImage(url: string, at: Location)
    requires UrlSplit(url) == at && !Contains(at.host, VIDEO_HOST) && !Excluded(url) && Contains(url, CDN)
    ensures Normalize(url) == ImageAt(Parts(at.path))
  {
  }

  /** The pieces that the normal form of an image keeps are clean. */
  lemma ImagePieces(url: string, i: nat)
    requires !Excluded(url) && i < |Parts(UrlSplit(url).path)|
    ensures IsPart(Parts(UrlSplit(url).path)[i]) && !Excluded(Parts(UrlSplit(url).path)[i])
  {
    var at := UrlSplit(url);
    PathNotExcluded(url, at);
    CleanPiece(at.path, i);
  }

  lemma PathNotExcluded(url: string, at: Location)
    requires at == UrlSplit(url) && !Excluded(url)
    ensures !Excluded(at.path) && Free(at.path, {'?', '#'})
  {
    var before, after := SplitWithin(url, at);
    PieceNotExcluded(before, at.host + at.path, after);
    assert at.host + at.path == at.host + at.path + "";
    PieceNotExcluded(at.host, at.path, "");
  }

  lemma CleanPiece(path: string, i: nat)
    requires !Excluded(path) && Free(path, {'?', '#'}) && i < |Parts(path)|
    ensures IsPart(Parts(path)[i]) && !Excluded(Parts(path)[i])
  {
    var before, after := PartsWithin(path, i);
    var piece := Parts(path)[i];
    PieceNotExcluded(before, piece, after);
    forall j | 0 <= j < |piece| ensures piece[j] !in STOPS { assert path[|before| + j] == piece[j]; }
  }

  lemma ImageFields(url: string)
    requires Normalize(url).Some? && Normalize(url).value.kind.Image?
    ensures var parts := Parts(UrlSplit(url).path);
            && !Excluded(url) && parts != [] && IsFileId(FileIdOf(parts))
            && Normalize(url) == Some(ImageOf(SegmentOf(parts), FileIdOf(parts)))
  {
  }

  lemma FrontNotExcluded(s: string, n: nat)
    requires n <= |s| && !Excluded(s)
    ensures !Excluded(s[..n])
  {
    assert s == "" + s[..n] + s[n..];
    PieceNotExcluded("", s[..n], s[n..]);
  }

  lemma CleanFileId(url: string)
    requires !Excluded(url) && Parts(UrlSplit(url).path) != []
    ensures !Excluded(FileIdOf(Parts(UrlSplit(url).path)))
  {
    var parts := Parts(UrlSplit(url).path);
    ImagePieces(url, |parts| - 1);
    var last := parts[|parts| - 1];
    assert !Excluded(last);
    FrontNotExcluded(last, Until(last, {'!'}));
  }

  lemma CleanSegment(url: string)
    requires !Excluded(url)
    ensures var segment := SegmentOf(Parts(UrlSplit(url).path)); !Excluded(segment) && GoodSegment(segment)
  {
    var parts := Parts(UrlSplit(url).path);
    if SegmentOf(parts) != "" { ImagePieces(url, |parts| - 2); } else { NothingExcluded(); }
  }

  /** For every image, normalising the normal form gives the same record. */
  lemma ImageNormalForm(url: string)
    requires Normalize(url).Some? && Normalize(url).value.kind.Image?
    ensures Normalize(Normalize(url).value.url) == Normalize(url)
  {
    var parts := Parts(UrlSplit(url).path);
    ImageFields(url);
    CleanFileId(url);
    CleanSegment(url);
    PermanentIsNormal(SegmentOf(parts), FileIdOf(parts));
  }

  lemma NothingExcluded()
    ensures !Excluded("")
  {
    assert "sns-avatar"[0] == 's' && "picasso-static"[0] == 'p' && "fe-video-qc"[0] == 'f';
    MissingChar("", "sns-avatar", 's');
    MissingChar("", "picasso-static", 'p');
    MissingChar("", "fe-video-qc", 'f');
  }

  // ---- videos ----

  lemma NormalizeVideo(url: string, at: Location)
    requires UrlSplit(url) == at && IsVideo(at) && !Excluded(url)
    ensures Normalize(url) == if Contains(url, CDN) then Some(VideoAt(at)) else None
  {
  }

  const BARE := "https:/"

  /** The normal form of a video is clean and names the delivery network only in host and path. */
  lemma VideoUrl(host: string, path: string)
    requires !Excluded(host + path)
    ensures var url := "https://" + host + path; !Excluded(url) && (Contains(url, CDN) <==> Contains(host + path, CDN))
  {
    var url := "https://" + host + path;
    assert url == BARE + ['/'] + (host + path);
    SchemeIsClean();
    NotExcludedApart(BARE, host + path);
    if Contains(host + path, CDN) {
      assert url == (BARE + ['/']) + (host + path) + "";
      ContainsWithin(BARE + ['/'], host + path, "", CDN);
    } else if Contains(url, CDN) {
      ContainsApart(BARE, '/', host + path, CDN);
    }
  }

  /** For a video the normal form is a normal form exactly if host and path name the delivery network. */
  lemma VideoNormalForm(url: string)
    requires Normalize(url).Some? && Normalize(url).value.kind.Video?
    ensures var at := UrlSplit(url);
            Normalize(Normalize(url).value.url) == if Contains(at.host + at.path, CDN) then Normalize(url) else None
  {
    var at := UrlSplit(url);
    var before, after := SplitWithin(url, at);
    PieceNotExcluded(before, at.host + at.path, after);
    VideoUrl(at.host, at.path);
    assert "https://" + at.host + at.path == "https://" + at.host + at.path + "";
    SplitOfHttps(at.host, at.path, "");
    NormalizeVideo("https://" + at.host + at.path, at);
  }

  lemma SchemeIsClean()
    ensures !Excluded(BARE) && !Contains(BARE, CDN)
  {
    assert "sns-avatar"[1] == 'n' && "picasso-static"[3] == 'a' && "fe-video-qc"[0] == 'f' && CDN[0] == 'x';
    MissingChar(BARE, "sns-avatar", 'n');
    MissingChar(BARE, "picasso-static", 'a');
    MissingChar(BARE, "fe-video-qc", 'f');
    MissingChar(BARE, CDN, 'x');
  }

  const ODD_VIDEO := "https://sns-video/m.mp4?xhscdn.com"
  const ODD_RESULT := "https://sns-video/m.mp4"

  lemma OddVideoSplit()
    ensures UrlSplit(ODD_VIDEO) == Location("sns-video", "/m.mp4")
  {
    assert ODD_VIDEO == "https://" + "sns-video" + "/m.mp4" + "?xhscdn.com";
    SplitOfHttps("sns-video", "/m.mp4", "?xhscdn.com");
  }

  lemma OddVideoIsVideo()
    ensures IsVideo(Location("sns-video", "/m.mp4"))
    ensures VideoAt(Location("sns-video", "/m.mp4")) == Media(Video, "m", "", ODD_RESULT)
  {
    assert "sns-video"[0..9] == VIDEO_HOST;
    ContainsAt("sns-video", VIDEO_HOST, 0);
    MovieName("/m.mp4");
    assert ODD_RESULT == "https://" + "sns-video" + "/m.mp4";
  }

  lemma OddResultIsLost()
    ensures Normalize(ODD_RESULT) == None
  {
    assert 'x' !in ODD_RESULT && CDN[0] == 'x';
    MissingChar(ODD_RESULT, CDN, 'x');
  }

  /** A video whose address names the network only in its query is taken once and lost the second time. */
  lemma VideoQueryIsNotEnough()
    ensures Normalize(ODD_VIDEO) == Some(Media(Video, "m", "", ODD_RESULT)) && Normalize(ODD_RESULT) == None
  {
    OddVideoSplit();
    OddVideoIsVideo();
    OddVideoIsNamed();
    OddVideoIsClean();
    OddResultIsLost();
    NormalizeVideo(ODD_VIDEO, Location("sns-video", "/m.mp4"));
  }

  lemma MovieName(path: string)
    requires path == "/m.mp4"
    ensures EndsWith(path, MP4) && WithoutSuffix(AfterLastSlash(path), MP4) == "m"
  {
    assert path[2..] == MP4 && Until(path, {'/'}) == 0 && path[1..] == "m.mp4" && AfterLastSlash("m.mp4") == "m.mp4";
    assert "m.mp4"[1..] == MP4 && "m.mp4"[..1] == "m";
  }

  lemma OddVideoIsNamed()
    ensures Contains(ODD_VIDEO, CDN)
  {
    assert ODD_VIDEO[24..34] == CDN;
    ContainsAt(ODD_VIDEO, CDN, 24);
  }

  lemma OddVideoIsClean()
    ensures !Excluded(ODD_VIDEO)
  {
    assert "sns-avatar"[4] == 'a' && "picasso-static"[3] == 'a' && "fe-video-qc"[0] == 'f';
    assert 'a' !in ODD_VIDEO && 'f' !in ODD_VIDEO;
    MissingChar(ODD_VIDEO, "sns-avatar", 'a');
    MissingChar(ODD_VIDEO, "picasso-static", 'a');
    MissingChar(ODD_VIDEO, "fe-video-qc", 'f');
  }

  // ---- one asset, many addresses ----

  /**
   However an image is addressed, with issue time and signature or other directories in front, with a
   variant behind its number, with any query: the record depends on segment and number alone.
   */
  lemma OneAssetOneRecord(host: string, dirs: seq<string>, segment: string, fileId: string, variant: string, query: string)
    requires Free(host, STOPS) && Contains(host, CDN) && !Contains(host, VIDEO_HOST)
    requires AreParts(dirs) && GoodSegment(segment) && IsFileId(fileId)
    requires segment == "" ==> dirs == [] || !IsSegment(dirs[|dirs| - 1])
    requires Free(variant, STOPS) && (variant == "" || variant[0] == '!') && (query == "" || query[0] in {'?', '#'})
    requires !Excluded("https://" + host + Joined(dirs + Pieces(segment, fileId + variant)) + query)
    ensures Normalize("https://" + host + Joined(dirs + Pieces(segment, fileId + variant)) + query) == Some(ImageOf(segment, fileId))
  {
    VariantDropped(fileId, variant);
    ImageOfPath(dirs, segment, fileId + variant);
    NormalizeHttps(host, Joined(dirs + Pieces(segment, fileId + variant)), query);
  }

  lemma NormalizeHttps(host: string, path: string, query: string)
    requires Free(host, STOPS) && Contains(host, CDN) && !Contains(host, VIDEO_HOST)
    requires Free(path, {'?', '#'}) && (path == "" || path[0] == '/') && (query == "" || query[0] in {'?', '#'})
    requires !Excluded("https://" + host + path + query)
    ensures Normalize("https://" + host + path + query) == ImageAt(Parts(path))
  {
    SplitOfHttps(host, path, query);
    HostNamed(host, path, query);
    NormalizeImage("https://" + host + path + query, Location(host, path));
  }

  lemma HostNamed(host: string, path: string, query: string)
    requires Contains(host, CDN)
    ensures Contains("https://" + host + path + query, CDN)
  {
    ContainsWithin("https://", host, path + query, CDN);
    assert "https://" + host + (path + query) == "https://" + host + path + query;
  }

  lemma VariantDropped(fileId: string, variant: string)
    requires IsFileId(fileId) && Free(variant, STOPS) && (variant == "" || variant[0] == '!')
    ensures BeforeVariant(fileId + variant) == fileId && IsPart(fileId + variant)
  {
    UntilAt(fileId, variant, {'!'});
    forall i | 0 <= i < |fileId + variant| ensures (fileId + variant)[i] !in STOPS {
      if i < |fileId| { assert IsIdChar(fileId[i]); } else { assert variant[i - |fileId|] !in STOPS; }
    }
  }

  // ---- which addresses are taken, and what becomes of them ----

  /** An address outside the delivery network, or of an avatar, a static asset or a page's own video, is not taken. */
  lemma ForeignIsNotTaken(url: string)
    requires || !Contains(url, "xhscdn.com") || Contains(url, "sns-avatar") || Contains(url, "picasso-static")
             || Contains(url, "fe-video-qc")
    ensures Normalize(url) == None
  {
  }

  /** An address of the delivery network without any of the three marks. */
  predicate OfNote(url: string) {
    Contains(url, "xhscdn.com") && !Contains(url, "sns-avatar") && !Contains(url, "picasso-static") && !Contains(url, "fe-video-qc")
  }

  lemma PictureOfNote(url: string, at: Location)
    requires OfNote(url) && UrlSplit(url) == at && (!Contains(at.host, "sns-video") || !IsFilm(at.path))
    ensures Normalize(url) == ImageAt(Parts(at.path))
  {
  }

  /** The last four characters are the ending of a film. */
  predicate IsFilm(path: string) { |path| >= 4 && path[|path| - 4..] == ".mp4" }

  lemma NumberInFront(fileId: string, variant: string)
    requires '!' !in fileId && (variant == "" || variant[0] == '!')
    ensures BeforeVariant(fileId + variant) == fileId
  {
    UntilAt(fileId, variant, {'!'});
    assert (fileId + variant)[..|fileId|] == fileId;
  }

  lemma FileIdMeaning(s: string)
    ensures IsFileId(s)
            <==> |s| >= 16 && forall c <- s :: 'a' <= c <= 'z' || 'A' <= c <= 'Z' || '0' <= c <= '9' || c == '_' || c == '-'
  {
    if IsFileId(s) {
      forall c | c in s ensures IsIdChar(c) {
        var i :| 0 <= i < |s| && s[i] == c;
      }
    }
    if forall c | c in s :: IsIdChar(c) {
      forall i | 0 <= i < |s| ensures IsIdChar(s[i]) { assert s[i] in s; }
    }
  }

  /** The directory that the permanent address keeps: the one in front of the number, unless it is an issue time or a signature. */
  lemma SegmentMeaning(dirs: seq<string>, last: string)
    ensures var dir := if dirs == [] then "" else dirs[|dirs| - 1];
            var issued := forall i | 0 <= i < |dir| :: '0' <= dir[i] <= '9';
            var signed := |dir| == 32 && forall i | 0 <= i < |dir| :: '0' <= dir[i] <= '9' || 'a' <= dir[i] <= 'f';
            SegmentOf(dirs + [last]) == if issued || signed then "" else dir
  {
    if dirs != [] { assert (dirs + [last])[|dirs| - 1] == dirs[|dirs| - 1]; }
  }

  lemma PathOfParts(scheme: string, host: string, parts: seq<string>, query: string)
    requires scheme == "http" || scheme == "https"
    requires Free(host, STOPS) && AreParts(parts) && (query == "" || query[0] in {'?', '#'})
    ensures UrlSplit(scheme + "://" + host + Joined(parts) + query) == Location(host, Joined(parts)) && Parts(Joined(parts)) == parts
  {
    PartsOfJoined(parts);
    SplitOfUrl(scheme, host, Joined(parts), query);
  }

  /**
   The record of a picture. Its number is what stands in front of the variant, at least 16 letters, digits, `_` or `-`;
   otherwise there is none.
   */
  lemma ImageExactly(scheme: string, host: string, dirs: seq<string>, fileId: string, variant: string, query: string)
    requires scheme == "http" || scheme == "https"
    requires Free(host, STOPS) && AreParts(dirs) && IsPart(fileId + variant)
    requires !Contains(host, "sns-video") || !IsFilm(Joined(dirs + [fileId + variant]))
    requires '!' !in fileId && (variant == "" || variant[0] == '!') && (query == "" || query[0] in {'?', '#'})
    requires OfNote(scheme + "://" + host + Joined(dirs + [fileId + variant]) + query)
    ensures var segment := SegmentOf(dirs + [fileId + variant]);
            var url := "https://sns-img-qc.xhscdn.com/" + (if segment == "" then "" else segment + "/") + fileId;
            Normalize(scheme + "://" + host + Joined(dirs + [fileId + variant]) + query)
            == if |fileId| >= 16 && forall c <- fileId :: 'a' <= c <= 'z' || 'A' <= c <= 'Z' || '0' <= c <= '9' || c == '_' || c == '-'
               then Some(Media(Image, fileId, segment, url)) else None
  {
    var all := dirs + [fileId + variant];
    var at := Location(host, Joined(all));
    assert AreParts(all);
    PathOfParts(scheme, host, all, query);
    PictureOfNote(scheme + "://" + host + Joined(all) + query, at);
    NumberInFront(fileId, variant);
    assert FileIdOf(all) == fileId;
    FileIdMeaning(fileId);
    PermanentSpelled(SegmentOf(all), fileId);
  }

  lemma PermanentSpelled(segment: string, fileId: string)
    ensures PermanentUrl(segment, fileId) == "https://sns-img-qc.xhscdn.com/" + (if segment == "" then "" else segment + "/") + fileId
  {
    assert PERMANENT + ['/'] == "https://sns-img-qc.xhscdn.com/";
    if segment != "" { assert PERMANENT + ['/'] + segment + ['/'] + fileId == PERMANENT + ['/'] + (segment + "/") + fileId; }
  }

  lemma FilmOfNote(url: string, at: Location)
    requires OfNote(url) && UrlSplit(url) == at && Contains(at.host, "sns-video") && EndsWith(at.path, ".mp4")
    ensures Normalize(url) == Some(Media(Video, WithoutSuffix(AfterLastSlash(at.path), ".mp4"), "", "https://" + at.host + at.path))
  {
  }

  lemma FilmPath(front: string, name: string)
    requires Free(front, {'?', '#'}) && Free(name, STOPS)
    ensures var path := front + ['/'] + (name + ".mp4");
            Free(path, {'?', '#'}) && EndsWith(path, ".mp4") && WithoutSuffix(AfterLastSlash(path), ".mp4") == name
  {
    var last := name + ".mp4";
    var path := front + ['/'] + last;
    assert Free(".mp4", STOPS);
    assert Free(last, STOPS);
    forall i | 0 <= i < |path| ensures path[i] !in {'?', '#'} {
      if i < |front| { assert path[i] == front[i]; } else if i > |front| { assert path[i] == last[i - |front| - 1]; }
    }
    LastPart(front, last);
    assert path[|path| - 4..] == last[|name|..] == ".mp4" && last[..|name|] == name;
  }

  /** The record of a film: the last part of its path without the ending, and the address without its query, fetched securely. */
  lemma VideoExactly(scheme: string, host: string, front: string, name: string, query: string)
    requires scheme == "http" || scheme == "https"
    requires Free(host, STOPS) && Contains(host, "sns-video") && Free(front, {'?', '#'}) && Free(name, STOPS)
    requires (front == "" || front[0] == '/') && (query == "" || query[0] in {'?', '#'})
    requires OfNote(scheme + "://" + host + (front + ['/'] + (name + ".mp4")) + query)
    ensures Normalize(scheme + "://" + host + (front + ['/'] + (name + ".mp4")) + query)
            == Some(Media(Video, name, "", "https://" + host + (front + ['/'] + (name + ".mp4"))))
  {
    var path := front + ['/'] + (name + ".mp4");
    FilmPath(front, name);
    SplitOfUrl(scheme, host, path, query);
    FilmOfNote(scheme + "://" + host + path + query, Location(host, path));
  }

  lemma CutFront(front: string, last: string, n: nat)
    requires n < |front|
    ensures (front + ['/'] + last)[n + 1..] == front[n + 1..] + ['/'] + last
  {
  }

  lemma {:induction false} LastPart(front: string, last: string)
    requires Free(last, {'/'})
    ensures AfterLastSlash(front + ['/'] + last) == last
    decreases |front|
  {
    var path := front + ['/'] + last;
    assert path[|front|] == '/';
    var n := Until(path, {'/'});
    if n < |front| {
      CutFront(front, last, n);
      LastPart(front[n + 1..], last);
    } else {
      assert path[|front| + 1..] == last && '/' !in last;
    }
  }

  // ---- the list of a note ----

  /** A blank number is a number here, so it must not look blank to the collector. */
  function KeyOf(m: Media): string { "=" + m.fileId }

  function Records(urls: seq<string>): seq<Media> {
    if urls == [] then []
    else
      var front, last := Records(urls[..|urls| - 1]), Normalize(urls[|urls| - 1]);
      if last.Some? then front + [last.value] else front
  }

  datatype Numbered = Numbered(ordinal: nat, media: Media)

  function NumberAll(media: seq<Media>): (r: seq<Numbered>)
    ensures |r| == |media| && forall i | 0 <= i < |r| :: r[i] == Numbered(i + 1, media[i])
  {
    if media == [] then [] else NumberAll(media[..|media| - 1]) + [Numbered(|media|, media[|media| - 1])]
  }

  function MediaList(urls: seq<string>): seq<Numbered> { NumberAll(Firsts(Records(urls), KeyOf)) }

  method CollectMedia(urls: seq<string>) returns (out: seq<Numbered>)
    ensures out == MediaList(urls)
  {
    out := [];
    ghost var kept: seq<Media> := [];
    var seen: set<string> := {};
    for i := 0 to |urls|
      invariant out == NumberAll(kept) && Collects(kept, seen, Records(urls[..i]), KeyOf)
    {
      assert urls[..i + 1][..i] == urls[..i];
      var item := Normalize(urls[i]);
      if item.None? { continue; }
      CollectsOneMore(kept, seen, Records(urls[..i]), KeyOf, item.value);
      if KeyOf(item.value) in seen { continue; }
      seen := seen + {KeyOf(item.value)};
      assert (kept + [item.value])[..|kept|] == kept;
      out, kept := out + [Numbered(|out| + 1, item.value)], kept + [item.value];
    }
    assert urls[..|urls|] == urls;
  }

  function UrlsOf(list: seq<Numbered>): seq<string> {
    if list == [] then [] else UrlsOf(list[..|list| - 1]) + [list[|list| - 1].media.url]
  }

  function Bare(list: seq<Numbered>): seq<Media> {
    if list == [] then [] else Bare(list[..|list| - 1]) + [list[|list| - 1].media]
  }

  lemma {:induction false} BareOfNumbered(media: seq<Media>)
    ensures Bare(NumberAll(media)) == media
  {
    if media != [] {
      var front := media[..|media| - 1];
      BareOfNumbered(front);
      assert NumberAll(media)[..|front|] == NumberAll(front);
      assert media == front + [media[|front|]];
    }
  }

  /** Positions count from 1, file numbers are distinct, and only records of the given addresses occur. */
  lemma ListIsNumbered(urls: seq<string>, k: string)
    ensures var list := MediaList(urls);
            && (forall i | 0 <= i < |list| :: list[i].ordinal == i + 1)
            && (forall i, j | 0 <= i < j < |list| :: list[i].media.fileId != list[j].media.fileId)
            && ((exists i :: 0 <= i < |list| && list[i].media.fileId == k) <==> HasKey(Records(urls), KeyOf, "=" + k))
  {
    var media, list := Firsts(Records(urls), KeyOf), MediaList(urls);
    FirstsKeys(Records(urls), KeyOf, "=" + k);
    forall i, j | 0 <= i < j < |list| ensures list[i].media.fileId != list[j].media.fileId {
      assert KeyOf(media[i]) != KeyOf(media[j]);
    }
    if i :| 0 <= i < |list| && list[i].media.fileId == k { assert KeyOf(media[i]) == "=" + k; }
    if i :| 0 <= i < |media| && KeyOf(media[i]) == "=" + k {
      assert KeyOf(media[i])[1..] == media[i].fileId && ("=" + k)[1..] == k;
      assert list[i].media.fileId == k;
    }
  }

  /** More addresses never renumber the images already found. */
  lemma ListGrows(urls: seq<string>, more: seq<string>)
    ensures MediaList(urls) <= MediaList(urls + more)
  {
    RecordsConcat(urls, more);
    FirstsGrow(Records(urls), Records(more), KeyOf);
  }

  lemma {:induction false} RecordsConcat(urls: seq<string>, more: seq<string>)
    ensures Records(urls + more) == Records(urls) + Records(more)
    decreases |more|
  {
    if more == [] {
      assert urls + more == urls;
    } else {
      RecordsConcat(urls, more[..|more| - 1]);
      assert (urls + more)[..|urls + more| - 1] == urls + more[..|more| - 1];
    }
  }

  /** A record's own address gives the record again exactly if it names the delivery network. */
  lemma RecordAgain(url: string, m: Media)
    requires Normalize(url) == Some(m)
    ensures Normalize(m.url) == if Contains(m.url, CDN) then Some(m) else None
  {
    if m.kind.Image? {
      ImageNormalForm(url);
    } else {
      var at := UrlSplit(url);
      VideoNormalForm(url);
      var before, after := SplitWithin(url, at);
      PieceNotExcluded(before, at.host + at.path, after);
      VideoUrl(at.host, at.path);
    }
  }

  lemma {:induction false} RecordSource(urls: seq<string>, m: Media) returns (url: string)
    requires m in Records(urls)
    ensures Normalize(url) == Some(m)
  {
    var last := urls[|urls| - 1];
    if Normalize(last) == Some(m) { url := last; } else { url := RecordSource(urls[..|urls| - 1], m); }
  }

  lemma {:induction false} FirstsFrom(s: seq<Media>, m: Media)
    requires m in Firsts(s, KeyOf)
    ensures m in s
  {
    if m in Firsts(s[..|s| - 1], KeyOf) { FirstsFrom(s[..|s| - 1], m); }
  }

  /** The record's own address names the delivery network. */
  predicate Named(m: Media) { Contains(m.url, CDN) }

  predicate AllNamed(media: seq<Media>) { forall i | 0 <= i < |media| :: Named(media[i]) }

  /** The record comes from some address: its own gives it back if it names the network. */
  predicate Stable(m: Media) { Normalize(m.url) == if Named(m) then Some(m) else None }

  /** What a list of records becomes when its addresses are read again. */
  function Again(media: seq<Media>): seq<Media> { Records(UrlsOf(NumberAll(media))) }

  lemma UrlsOneMore(front: seq<Media>, last: Media)
    ensures UrlsOf(NumberAll(front + [last])) == UrlsOf(NumberAll(front)) + [last.url]
  {
    assert (front + [last])[..|front|] == front;
    assert NumberAll(front + [last])[..|front|] == NumberAll(front);
  }

  lemma RecordsOneMore(urls: seq<string>, url: string)
    ensures Records(urls + [url]) == Records(urls) + if Normalize(url).Some? then [Normalize(url).value] else []
  {
    assert (urls + [url])[..|urls|] == urls;
  }

  lemma AgainOneMore(front: seq<Media>, last: Media)
    requires Stable(last)
    ensures Again(front + [last]) == if Named(last) then Again(front) + [last] else Again(front)
  {
    UrlsOneMore(front, last);
    RecordsOneMore(UrlsOf(NumberAll(front)), last.url);
  }

  /** A sequence of lists that grows by the good elements only is complete exactly if all are good. */
  lemma {:induction false} Accumulates(lists: seq<seq<Media>>, media: seq<Media>, good: Media -> bool, n: nat)
    requires |lists| == |media| + 1 && lists[0] == [] && n <= |media|
    requires forall i | 0 <= i < |media| :: lists[i + 1] == if good(media[i]) then lists[i] + [media[i]] else lists[i]
    ensures |lists[n]| <= n
    ensures if forall i | 0 <= i < n :: good(media[i]) then lists[n] == media[..n] else |lists[n]| < n
  {
    if n > 0 {
      Accumulates(lists, media, good, n - 1);
      assert media[..n] == media[..n - 1] + [media[n - 1]];
    }
  }

  /** Reading the addresses of a list again loses exactly the records whose address does not name the network. */
  lemma RecordsAgain(media: seq<Media>)
    requires forall i | 0 <= i < |media| :: Stable(media[i])
    ensures |Again(media)| <= |media| && if AllNamed(media) then Again(media) == media else |Again(media)| < |media|
  {
    var lists := seq(|media| + 1, i requires 0 <= i <= |media| => Again(media[..i]));
    forall i | 0 <= i < |media| ensures lists[i + 1] == if Named(media[i]) then lists[i] + [media[i]] else lists[i] {
      AgainOneMore(media[..i], media[i]);
      assert media[..i + 1] == media[..i] + [media[i]];
    }
    Accumulates(lists, media, m => Named(m), |media|);
    assert media[..|media|] == media;
  }

  lemma {:induction false} FirstsShorter(s: seq<Media>)
    ensures |Firsts(s, KeyOf)| <= |s|
  {
    if s != [] { FirstsShorter(s[..|s| - 1]); }
  }

  /** Fed with its own addresses, the list comes out the same exactly if every address names the delivery network. */
  lemma ListReproducesItself(urls: seq<string>)
    ensures MediaList(UrlsOf(MediaList(urls))) == MediaList(urls) <==> AllNamed(Firsts(Records(urls), KeyOf))
  {
    var media := Firsts(Records(urls), KeyOf);
    forall i | 0 <= i < |media| ensures Stable(media[i]) {
      FirstsFrom(Records(urls), media[i]);
      var url := RecordSource(urls, media[i]);
      RecordAgain(url, media[i]);
    }
    RecordsAgain(media);
    FirstsShorter(Again(media));
    FirstsKeys(Records(urls), KeyOf, "");
    if AllNamed(media) { FirstsOfDistinct(media, KeyOf); }
  }
}
