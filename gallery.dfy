/** A class's photo gallery: albums of photos, each photo with its likes and
    comments, and a short list of the most recently uploaded photos. */
module GalleryModel {
  import opened Common
  import opened Strings
  import opened Seqs

  /** The most photos `recentPhotos` keeps. */
  const RecentLimit: nat := 10

  datatype Comment = Comment(user: UserId, text: string, createdAt: Time)

  datatype Photo = Photo(
    id: ItemId,
    title: Option<string>,
    description: Option<string>,
    imageUrl: string,
    cloudinaryId: Option<string>,
    uploadedBy: UserId,
    uploadedAt: Time,
    tags: seq<string>,
    likes: seq<UserId>,
    comments: seq<Comment>)

  datatype Album = Album(
    id: ItemId,
    title: string,
    description: Option<string>,
    coverImage: Option<string>,
    photos: seq<Photo>,
    createdBy: UserId,
    createdAt: Time,
    event: Option<string>,
    eventDate: Option<Time>,
    visibility: Visibility)

  /** A photo as the schema stores it: text trimmed, no likes, no comments. */
  function NewPhoto(id: ItemId, title: Option<string>, description: Option<string>, imageUrl: string,
                    cloudinaryId: Option<string>, uploadedBy: UserId, now: Time, tags: seq<string>): (p: Photo)
    ensures p.id == id && p.imageUrl == Trim(imageUrl) && p.uploadedBy == uploadedBy && p.uploadedAt == now
    ensures p.likes == [] && p.comments == [] && |p.tags| == |tags|
  {
    Photo(id, TrimOpt(title), TrimOpt(description), Trim(imageUrl), TrimOpt(cloudinaryId), uploadedBy, now,
          seq(|tags|, i requires 0 <= i < |tags| => Trim(tags[i])), [], [])
  }

  /** An album as the schema stores it: text trimmed, no photos, no cover. */
  function NewAlbum(id: ItemId, title: string, description: Option<string>, event: Option<string>,
                    eventDate: Option<Time>, visibility: Visibility, createdBy: UserId, now: Time): (a: Album)
    ensures a.id == id && a.title == Trim(title) && a.visibility == visibility && a.createdBy == createdBy
    ensures a.photos == [] && a.coverImage.None?
  {
    Album(id, Trim(title), TrimOpt(description), None, [], createdBy, now, TrimOpt(event), eventDate, visibility)
  }

  /** `likes` holds no user twice. */
  ghost predicate PhotoOk(p: Photo)
  {
    forall i, j :: 0 <= i < j < |p.likes| ==> p.likes[i] != p.likes[j]
  }

  ghost predicate AlbumOk(a: Album)
  {
    forall p :: p in a.photos ==> PhotoOk(p)
  }

  /** The gallery invariant: a bounded recent list and duplicate-free likes. */
  ghost predicate GalleryOk(albums: seq<Album>, recent: seq<Photo>)
  {
    |recent| <= RecentLimit && forall a :: a in albums ==> AlbumOk(a)
  }

  /** `albums.id(id)`: the first album with that id. */
  function AlbumIndex(albums: seq<Album>, id: ItemId): (r: Option<nat>)
    ensures r.Some? ==> r.value < |albums| && albums[r.value].id == id
    ensures r.Some? ==> forall j :: 0 <= j < r.value ==> albums[j].id != id
    ensures r.None? <==> forall j :: 0 <= j < |albums| ==> albums[j].id != id
  {
    if albums == [] then None
    else if albums[0].id == id then Some(0)
    else match AlbumIndex(albums[1..], id)
      case None =>
        assert forall j :: 1 <= j < |albums| ==> albums[j] == albums[1..][j - 1];
        None
      case Some(i) => Some(i + 1)
  }

  /** `photos.id(id)`: the first photo with that id. */
  function PhotoIndex(photos: seq<Photo>, id: ItemId): (r: Option<nat>)
    ensures r.Some? ==> r.value < |photos| && photos[r.value].id == id
    ensures r.Some? ==> forall j :: 0 <= j < r.value ==> photos[j].id != id
    ensures r.None? <==> forall j :: 0 <= j < |photos| ==> photos[j].id != id
  {
    if photos == [] then None
    else if photos[0].id == id then Some(0)
    else match PhotoIndex(photos[1..], id)
      case None =>
        assert forall j :: 1 <= j < |photos| ==> photos[j] == photos[1..][j - 1];
        None
      case Some(i) => Some(i + 1)
  }

  /** `unshift` then, past the limit, `pop`: the newest photo first, at most
      `RecentLimit` kept, the rest in their previous order. */
  function PushRecent(recent: seq<Photo>, p: Photo): (r: seq<Photo>)
    requires |recent| <= RecentLimit
    ensures |r| <= RecentLimit && |r| == if |recent| < RecentLimit then |recent| + 1 else RecentLimit
    ensures r[0] == p
    ensures r[1..] == recent[..|r| - 1]
  {
    var r := [p] + recent;
    if |r| > RecentLimit then r[..|r| - 1] else r
  }

  /** The album after `addPhotoToAlbum`: the photo appended, and the cover set
      to it when the album had no cover and this is its first photo. */
  function WithPhoto(a: Album, p: Photo): (r: Album)
    ensures r.photos == a.photos + [p]
    ensures r.coverImage == (if !Truthy(a.coverImage) && a.photos == [] then Some(p.imageUrl) else a.coverImage)
    ensures r.(photos := a.photos, coverImage := a.coverImage) == a
  {
    var photos := a.photos + [p];
    a.(photos := photos, coverImage := if !Truthy(a.coverImage) && |photos| == 1 then Some(p.imageUrl) else a.coverImage)
  }

  /** `likePhoto` on one photo: the user is added when absent. */
  function Liked(p: Photo, u: UserId): (r: Photo)
    ensures u in r.likes
    ensures u in p.likes ==> r == p
    ensures u !in p.likes ==> r.likes == p.likes + [u]
    ensures r.(likes := p.likes) == p
    ensures PhotoOk(p) ==> PhotoOk(r)
  {
    if u in p.likes then p else p.(likes := p.likes + [u])
  }

  /** Liking twice is liking once. */
  lemma LikeIdempotent(p: Photo, u: UserId)
    ensures Liked(Liked(p, u), u) == Liked(p, u)
  {
  }

  /** Replacing photo `k` of album `i` by a well-formed photo keeps the
      invariant. */
  lemma ReplacePhotoKeepsOk(albums: seq<Album>, recent: seq<Photo>, i: nat, k: nat, p: Photo)
    requires GalleryOk(albums, recent) && i < |albums| && k < |albums[i].photos| && PhotoOk(p)
    ensures GalleryOk(albums[i := albums[i].(photos := albums[i].photos[k := p])], recent)
  {
    var a := albums[i].(photos := albums[i].photos[k := p]);
    assert albums[i] in albums;
    forall q | q in a.photos
      ensures PhotoOk(q)
    {
      var j :| 0 <= j < |a.photos| && a.photos[j] == q;
      if j != k {
        assert q in albums[i].photos;
      }
    }
  }

  class Gallery {
    var cls: ClassId
    var albums: seq<Album>
    var recentPhotos: seq<Photo>
    var createdBy: UserId
    var lastUpdatedBy: Option<UserId>

    ghost predicate Valid()
      reads this
    {
      GalleryOk(albums, recentPhotos)
    }

    /** `new Gallery({ class, createdBy })`. */
    constructor(cls: ClassId, createdBy: UserId)
      ensures Valid() && this.cls == cls && this.createdBy == createdBy
      ensures albums == [] && recentPhotos == [] && lastUpdatedBy == None
    {
      this.cls := cls;
      this.createdBy := createdBy;
      albums := [];
      recentPhotos := [];
      lastUpdatedBy := None;
    }

    /** `addPhotoToAlbum`: an unknown album throws; a photo without an image
        URL fails the save; otherwise the photo goes to the end of that album
        (which may take it as cover) and a copy of it to the front of the recent
        list, and its uploader becomes the last updater. Each array casts the
        pushed object into a subdocument of its own, so the recent copy carries
        a generated id `recentId` of its own. */
    method AddPhotoToAlbum(albumId: ItemId, p: Photo, recentId: ItemId) returns (s: Status)
      requires Valid() && PhotoOk(p)
      modifies this
      ensures Valid() && cls == old(cls) && createdBy == old(createdBy)
      ensures s.Done? <==> AlbumIndex(old(albums), albumId).Some? && p.imageUrl != ""
      ensures s.Failed? ==> s.error == ServerError && unchanged(this)
      ensures s.Done? ==>
        var k := AlbumIndex(old(albums), albumId).value;
        albums == old(albums)[k := WithPhoto(old(albums)[k], p)]
        && recentPhotos == PushRecent(old(recentPhotos), p.(id := recentId))
        && lastUpdatedBy == Some(p.uploadedBy)
    {
      var k := AlbumIndex(albums, albumId);
      if k.None? || p.imageUrl == "" {
        return Failed(ServerError);
      }
      var a := WithPhoto(albums[k.value], p);
      assert albums[k.value] in albums;
      assert AlbumOk(a);
      albums := albums[k.value := a];
      recentPhotos := PushRecent(recentPhotos, p.(id := recentId));
      lastUpdatedBy := Some(p.uploadedBy);
      s := Done;
    }

    /** `createAlbum`: an album without a title fails the save; otherwise it
        is appended and its creator becomes the last updater. */
    method CreateAlbum(a: Album) returns (s: Status)
      requires Valid() && a.photos == []
      modifies this
      ensures Valid() && cls == old(cls) && createdBy == old(createdBy) && recentPhotos == old(recentPhotos)
      ensures s.Done? <==> a.title != ""
      ensures s.Failed? ==> s.error == ServerError && unchanged(this)
      ensures s.Done? ==> albums == old(albums) + [a] && lastUpdatedBy == Some(a.createdBy)
    {
      if a.title == "" {
        return Failed(ServerError);
      }
      albums := albums + [a];
      lastUpdatedBy := Some(a.createdBy);
      s := Done;
    }

    /** `likePhoto`: an unknown album or photo throws; otherwise the user is
        among the photo's likes exactly once. */
    method LikePhoto(albumId: ItemId, photoId: ItemId, u: UserId) returns (s: Status)
      requires Valid()
      modifies this
      ensures Valid() && cls == old(cls) && createdBy == old(createdBy)
      ensures recentPhotos == old(recentPhotos) && lastUpdatedBy == old(lastUpdatedBy)
      ensures var k := AlbumIndex(old(albums), albumId);
        s.Done? <==> k.Some? && PhotoIndex(old(albums)[k.value].photos, photoId).Some?
      ensures s.Failed? ==> s.error == ServerError && unchanged(this)
      ensures s.Done? ==>
        var k := AlbumIndex(old(albums), albumId).value;
        var a := old(albums)[k];
        var j := PhotoIndex(a.photos, photoId).value;
        albums == old(albums)[k := a.(photos := a.photos[j := Liked(a.photos[j], u)])]
    {
      var k := AlbumIndex(albums, albumId);
      if k.None? {
        return Failed(ServerError);
      }
      var a := albums[k.value];
      var j := PhotoIndex(a.photos, photoId);
      if j.None? {
        return Failed(ServerError);
      }
      assert a in albums && a.photos[j.value] in a.photos;
      ReplacePhotoKeepsOk(albums, recentPhotos, k.value, j.value, Liked(a.photos[j.value], u));
      albums := albums[k.value := a.(photos := a.photos[j.value := Liked(a.photos[j.value], u)])];
      s := Done;
    }

    /** `commentOnPhoto`: an unknown album or photo throws and a comment
        without text fails the save; otherwise the comment is appended to the
        photo's comments. */
    method CommentOnPhoto(albumId: ItemId, photoId: ItemId, c: Comment) returns (s: Status)
      requires Valid()
      modifies this
      ensures Valid() && cls == old(cls) && createdBy == old(createdBy)
      ensures recentPhotos == old(recentPhotos) && lastUpdatedBy == old(lastUpdatedBy)
      ensures var k := AlbumIndex(old(albums), albumId);
        s.Done? <==> k.Some? && PhotoIndex(old(albums)[k.value].photos, photoId).Some? && c.text != ""
      ensures s.Failed? ==> s.error == ServerError && unchanged(this)
      ensures s.Done? ==>
        var k := AlbumIndex(old(albums), albumId).value;
        var a := old(albums)[k];
        var j := PhotoIndex(a.photos, photoId).value;
        albums == old(albums)[k := a.(photos := a.photos[j := a.photos[j].(comments := a.photos[j].comments + [c])])]
    {
      var k := AlbumIndex(albums, albumId);
      if k.None? {
        return Failed(ServerError);
      }
      var a := albums[k.value];
      var j := PhotoIndex(a.photos, photoId);
      if j.None? || c.text == "" {
        return Failed(ServerError);
      }
      var p := a.photos[j.value];
      assert a in albums && p in a.photos;
      ReplacePhotoKeepsOk(albums, recentPhotos, k.value, j.value, p.(comments := p.comments + [c]));
      albums := albums[k.value := a.(photos := a.photos[j.value := p.(comments := p.comments + [c])])];
      s := Done;
    }
  }
}
