/** The HTTP handlers over class galleries: who may view a gallery or an
    album, who may add albums and photos, who may edit or remove them, and
    what removal does to album covers and the recent list. The gallery of the
    class (`Gallery.findOne({ class })`) and the existence of the class are
    parameters, and ids of new albums and photos are supplied by the caller. */
module GalleryController {
  import opened Common
  import opened Strings
  import opened Seqs
  import opened Roles
  import opened Users
  import opened Permissions
  import opened GalleryModel
  import FinanceController

  /** Viewing a gallery (with the class's gallery visibility) or an album
      (with the album's own visibility): administrators, class members when the
      setting is `class_only`, and everyone when it is `school` or `public`. */
  predicate MayView(a: Actor, classId: ClassId, v: Visibility)
  {
    a.role in {SuperAdmin, Admin} || (BelongsToClass(a.cls, classId) && v == ClassOnly) || v == School || v == Public
  }

  /** Unlike the finance rule, the gallery rule gives a class teacher of
      another class nothing. */
  lemma GalleryViewNarrowerThanFinance(a: Actor, classId: ClassId, v: Visibility)
    ensures MayView(a, classId, v) ==> FinanceController.MayViewFinances(a, classId, v)
    ensures var other := Actor(a.id, ClassTeacher, Some(classId + 1));
      !MayView(other, classId, ClassOnly) && FinanceController.MayViewFinances(other, classId, ClassOnly)
  {
  }

  /** Creating albums and uploading photos: administrators and class teachers
      anywhere; the president, vice president or secretary in their own class. */
  predicate MayContribute(a: Actor, classId: ClassId)
  {
    a.role in {SuperAdmin, Admin, ClassTeacher}
    || (a.role in {ClassPresident, VicePresident, Secretary} && BelongsToClass(a.cls, classId))
  }

  /** Editing or deleting an album, or deleting a photo: its owner,
      administrators and class teachers, or the president of the class. */
  predicate MayCurate(a: Actor, classId: ClassId, owner: UserId)
  {
    owner == a.id || a.role in {SuperAdmin, Admin, ClassTeacher}
    || (a.role == ClassPresident && BelongsToClass(a.cls, classId))
  }

  /** Curating someone else's item takes more than contributing: every such
      curator may contribute, but a vice president or secretary may contribute
      without curating. */
  lemma CuratorsContribute(a: Actor, classId: ClassId, owner: UserId)
    ensures MayCurate(a, classId, owner) && owner != a.id ==> MayContribute(a, classId)
    ensures var vp := Actor(owner + 1, VicePresident, Some(classId));
      MayContribute(vp, classId) && !MayCurate(vp, classId, owner)
  {
  }

  /** `visibility || 'class_only'`, then the schema's enum check. */
  function VisibilityOrDefault(v: Option<string>): (r: Option<Visibility>)
    ensures !Truthy(v) ==> r == Some(ClassOnly)
    ensures Truthy(v) ==> r == ParseVisibility(v.value)
  {
    if Truthy(v) then ParseVisibility(v.value) else Some(ClassOnly)
  }

  /** `getClassGallery`: 404 for an unknown class, 403 without view access;
      otherwise the gallery, created empty when the class has none. */
  method GetClassGallery(a: Actor, classId: ClassId, classVisibility: Option<Visibility>, gallery: Gallery?)
    returns (s: Status, created: Gallery?)
    ensures classVisibility.None? ==> s == Failed(NotFound)
    ensures classVisibility.Some? && !MayView(a, classId, classVisibility.value) ==> s == Failed(Forbidden)
    ensures s.Done? <==> classVisibility.Some? && MayView(a, classId, classVisibility.value)
    ensures created != null <==> s.Done? && gallery == null
    ensures created != null ==> (fresh(created) && created.Valid() && created.cls == classId
                                 && created.createdBy == a.id && created.albums == [])
  {
    created := null;
    if classVisibility.None? {
      return Failed(NotFound), null;
    }
    if !MayView(a, classId, classVisibility.value) {
      return Failed(Forbidden), null;
    }
    if gallery == null {
      created := new Gallery(classId, a.id);
    }
    s := Done;
  }

  /** `getAlbumById`: 404 without a gallery or album, 403 without view access
      to the album's own visibility. */
  method GetAlbum(a: Actor, classId: ClassId, albumId: ItemId, gallery: Gallery?) returns (r: Result<Album>)
    ensures gallery == null ==> r == Err(NotFound)
    ensures gallery != null && AlbumIndex(gallery.albums, albumId).None? ==> r == Err(NotFound)
    ensures r.Ok? <==> (gallery != null && AlbumIndex(gallery.albums, albumId).Some?
                        && MayView(a, classId, gallery.albums[AlbumIndex(gallery.albums, albumId).value].visibility))
    ensures r.Ok? ==> r.value == gallery.albums[AlbumIndex(gallery.albums, albumId).value] && r.value.id == albumId
    ensures r.Err? ==> r.error in {NotFound, Forbidden}
  {
    if gallery == null {
      return Err(NotFound);
    }
    var k := AlbumIndex(gallery.albums, albumId);
    if k.None? {
      return Err(NotFound);
    }
    var album := gallery.albums[k.value];
    if !MayView(a, classId, album.visibility) {
      return Err(Forbidden);
    }
    r := Ok(album);
  }

  /** `createAlbum`: 404 for an unknown class, 403 without contributor
      access; then `Gallery.CreateAlbum` on the class's gallery or a new one.
      A missing or blank title, or an unknown visibility, fails the save. */
  method CreateAlbum(a: Actor, classId: ClassId, albumId: ItemId, title: Option<string>, description: Option<string>,
                     event: Option<string>, eventDate: Option<Time>, visibility: Option<string>,
                     classExists: bool, gallery: Gallery?, now: Time)
    returns (s: Status, created: Gallery?)
    requires gallery != null ==> gallery.Valid()
    modifies gallery
    ensures !classExists ==> s == Failed(NotFound)
    ensures classExists && !MayContribute(a, classId) ==> s == Failed(Forbidden)
    ensures s.Done? <==> (classExists && MayContribute(a, classId) && title.Some? && Trim(title.value) != ""
                          && VisibilityOrDefault(visibility).Some?)
    ensures gallery != null ==> gallery.Valid()
    ensures gallery != null && s.Failed? ==> unchanged(gallery)
    ensures gallery != null && s.Done? ==>
      gallery.albums == old(gallery.albums)
        + [NewAlbum(albumId, title.value, description, event, eventDate, VisibilityOrDefault(visibility).value, a.id, now)]
      && gallery.recentPhotos == old(gallery.recentPhotos) && gallery.lastUpdatedBy == Some(a.id)
    ensures created != null <==> s.Done? && gallery == null
    ensures created != null ==> (fresh(created) && created.Valid() && created.cls == classId
      && created.albums == [NewAlbum(albumId, title.value, description, event, eventDate, VisibilityOrDefault(visibility).value, a.id, now)])
  {
    created := null;
    if !classExists {
      return Failed(NotFound), null;
    }
    if !MayContribute(a, classId) {
      return Failed(Forbidden), null;
    }
    var v := VisibilityOrDefault(visibility);
    if title.None? || v.None? {
      return Failed(ServerError), null;
    }
    var album := NewAlbum(albumId, title.value, description, event, eventDate, v.value, a.id, now);
    if gallery == null {
      var g := new Gallery(classId, a.id);
      s := g.CreateAlbum(album);
      if s.Done? {
        created := g;
      }
    } else {
      s := gallery.CreateAlbum(album);
    }
  }

  /** `uploadPhoto`: 400 without an image URL, 404 without a gallery or album,
      403 without contributor access; then `Gallery.AddPhotoToAlbum`, the
      album's photo getting the id `photoId` and its recent copy `recentId`. */
  method UploadPhoto(a: Actor, classId: ClassId, albumId: ItemId, photoId: ItemId, recentId: ItemId,
                     title: Option<string>, description: Option<string>,
                     imageUrl: Option<string>, cloudinaryId: Option<string>, tags: Option<seq<string>>, gallery: Gallery?, now: Time)
    returns (s: Status)
    requires gallery != null ==> gallery.Valid()
    modifies gallery
    ensures !Truthy(imageUrl) ==> s == Failed(BadRequest)
    ensures Truthy(imageUrl) && gallery == null ==> s == Failed(NotFound)
    ensures Truthy(imageUrl) && gallery != null && AlbumIndex(old(gallery.albums), albumId).None? ==> s == Failed(NotFound)
    ensures (Truthy(imageUrl) && gallery != null && AlbumIndex(old(gallery.albums), albumId).Some?
             && !MayContribute(a, classId)) ==> s == Failed(Forbidden)
    ensures (Truthy(imageUrl) && gallery != null && AlbumIndex(old(gallery.albums), albumId).Some?
             && MayContribute(a, classId) && Trim(imageUrl.value) == "") ==> s == Failed(ServerError)
    ensures s.Done? <==> (Truthy(imageUrl) && gallery != null && AlbumIndex(old(gallery.albums), albumId).Some?
                          && MayContribute(a, classId) && Trim(imageUrl.value) != "")
    ensures gallery != null ==> gallery.Valid()
    ensures gallery != null && s.Failed? ==> unchanged(gallery)
    ensures s.Done? ==>
      var p := NewPhoto(photoId, title, description, imageUrl.value, cloudinaryId, a.id, now, if tags.Some? then tags.value else []);
      var k := AlbumIndex(old(gallery.albums), albumId).value;
      gallery.albums == old(gallery.albums)[k := WithPhoto(old(gallery.albums)[k], p)]
      && gallery.recentPhotos == PushRecent(old(gallery.recentPhotos), p.(id := recentId))
      && gallery.recentPhotos[0] == p.(id := recentId)
  {
    if !Truthy(imageUrl) {
      return Failed(BadRequest);
    }
    if gallery == null || AlbumIndex(gallery.albums, albumId).None? {
      return Failed(NotFound);
    }
    if !MayContribute(a, classId) {
      return Failed(Forbidden);
    }
    var p := NewPhoto(photoId, title, description, imageUrl.value, cloudinaryId, a.id, now, if tags.Some? then tags.value else []);
    s := gallery.AddPhotoToAlbum(albumId, p, recentId);
  }

  /** `likePhoto`: 404 without a gallery; a missing album or photo answers
      500 from the thrown error. */
  method LikePhoto(a: Actor, albumId: ItemId, photoId: ItemId, gallery: Gallery?) returns (s: Status)
    requires gallery != null ==> gallery.Valid()
    modifies gallery
    ensures gallery == null ==> s == Failed(NotFound)
    ensures gallery != null ==> gallery.Valid()
    ensures gallery != null && s.Failed? ==> unchanged(gallery)
    ensures s.Done? <==> (gallery != null && AlbumIndex(old(gallery.albums), albumId).Some?
      && PhotoIndex(old(gallery.albums)[AlbumIndex(old(gallery.albums), albumId).value].photos, photoId).Some?)
    ensures s.Done? ==>
      var k := AlbumIndex(old(gallery.albums), albumId).value;
      var al := old(gallery.albums)[k];
      var j := PhotoIndex(al.photos, photoId).value;
      gallery.albums == old(gallery.albums)[k := al.(photos := al.photos[j := Liked(al.photos[j], a.id)])]
      && a.id in gallery.albums[k].photos[j].likes
  {
    if gallery == null {
      return Failed(NotFound);
    }
    s := gallery.LikePhoto(albumId, photoId, a.id);
  }

  /** `commentOnPhoto`: 400 without text, 404 without a gallery; a missing
      album or photo, or text that is blank once trimmed, answers 500. */
  method CommentOnPhoto(a: Actor, albumId: ItemId, photoId: ItemId, text: Option<string>, gallery: Gallery?, now: Time)
    returns (s: Status)
    requires gallery != null ==> gallery.Valid()
    modifies gallery
    ensures !Truthy(text) ==> s == Failed(BadRequest)
    ensures Truthy(text) && gallery == null ==> s == Failed(NotFound)
    ensures gallery != null ==> gallery.Valid()
    ensures gallery != null && s.Failed? ==> unchanged(gallery)
    ensures s.Done? <==> (Truthy(text) && gallery != null && AlbumIndex(old(gallery.albums), albumId).Some?
      && PhotoIndex(old(gallery.albums)[AlbumIndex(old(gallery.albums), albumId).value].photos, photoId).Some?
      && Trim(text.value) != "")
    ensures s.Done? ==>
      var k := AlbumIndex(old(gallery.albums), albumId).value;
      var al := old(gallery.albums)[k];
      var j := PhotoIndex(al.photos, photoId).value;
      gallery.albums == old(gallery.albums)[k := al.(photos := al.photos[j := al.photos[j].(
        comments := al.photos[j].comments + [Comment(a.id, Trim(text.value), now)])])]
  {
    if !Truthy(text) {
      return Failed(BadRequest);
    }
    if gallery == null {
      return Failed(NotFound);
    }
    s := gallery.CommentOnPhoto(albumId, photoId, Comment(a.id, Trim(text.value), now));
  }

  /** Every photo of `s` except those with the given id, in order. */
  function WithoutId(s: seq<Photo>, id: ItemId): (r: seq<Photo>)
    ensures |r| <= |s|
    ensures forall p :: p in r <==> p in s && p.id != id
  {
    Filter(s, (p: Photo) => p.id != id)
  }

  /** Upload then delete, as written: the recent copy carries an id of its
      own, so the delete's filter by the album photo's id leaves it at the
      head of the recent list. */
  lemma DeleteKeepsRecentCopy(recent: seq<Photo>, p: Photo, recentId: ItemId)
    requires |recent| < RecentLimit && recentId != p.id
    requires forall q :: q in recent ==> q.id != p.id
    ensures WithoutId(PushRecent(recent, p.(id := recentId)), p.id) == [p.(id := recentId)] + recent
  {
    var c := p.(id := recentId);
    FilterAll([c] + recent, (q: Photo) => q.id != p.id);
  }

  /** Upload then delete, as intended: when the recent copy shares the album
      photo's id, deleting the photo gives back the recent list as it was. */
  lemma DeleteUndoesSharedCopy(recent: seq<Photo>, p: Photo)
    requires |recent| < RecentLimit
    requires forall q :: q in recent ==> q.id != p.id
    ensures WithoutId(PushRecent(recent, p), p.id) == recent
  {
    var keep := (q: Photo) => q.id != p.id;
    assert PushRecent(recent, p) == [p] + recent;
    FilterSingle(p, keep);
    FilterAppend([p], recent, keep);
    FilterAll(recent, keep);
  }

  /** The album after one of its photos is deleted: the photos with that id
      are gone, and a cover showing the deleted photo moves to the new first
      photo, if any. */
  function AfterPhotoDeleted(al: Album, photo: Photo): (r: Album)
    ensures r.photos == WithoutId(al.photos, photo.id)
    ensures r.coverImage == (if al.coverImage == Some(photo.imageUrl) && r.photos != [] then Some(r.photos[0].imageUrl) else al.coverImage)
    ensures r.(photos := al.photos, coverImage := al.coverImage) == al
  {
    var photos := WithoutId(al.photos, photo.id);
    al.(photos := photos,
        coverImage := if al.coverImage == Some(photo.imageUrl) && |photos| > 0 then Some(photos[0].imageUrl) else al.coverImage)
  }

  /** Keeping some photos of one album, or of the recent list, keeps the
      gallery invariant. */
  lemma ShrinkKeepsOk(albums: seq<Album>, recent: seq<Photo>, i: nat, al: Album, recent': seq<Photo>)
    requires GalleryOk(albums, recent) && i < |albums|
    requires forall p :: p in al.photos ==> p in albums[i].photos
    requires |recent'| <= |recent|
    ensures GalleryOk(albums[i := al], recent')
  {
    assert albums[i] in albums;
  }

  /** `deletePhoto`: 404 without a gallery, album or photo; 403 unless the
      caller owns the photo or may curate; then the photo leaves its album
      (moving the cover when it showed the photo) and the recent list. */
  method DeletePhoto(a: Actor, classId: ClassId, albumId: ItemId, photoId: ItemId, gallery: Gallery?) returns (s: Status)
    requires gallery != null ==> gallery.Valid()
    modifies gallery
    ensures gallery == null ==> s == Failed(NotFound)
    ensures gallery != null ==> gallery.Valid()
    ensures gallery != null && s.Failed? ==> unchanged(gallery)
    ensures gallery != null && AlbumIndex(old(gallery.albums), albumId).None? ==> s == Failed(NotFound)
    ensures (gallery != null && AlbumIndex(old(gallery.albums), albumId).Some?
             && PhotoIndex(old(gallery.albums)[AlbumIndex(old(gallery.albums), albumId).value].photos, photoId).None?)
            ==> s == Failed(NotFound)
    ensures (gallery != null && AlbumIndex(old(gallery.albums), albumId).Some?
             && var al := old(gallery.albums)[AlbumIndex(old(gallery.albums), albumId).value];
                PhotoIndex(al.photos, photoId).Some?
                && !MayCurate(a, classId, al.photos[PhotoIndex(al.photos, photoId).value].uploadedBy))
            ==> s == Failed(Forbidden)
    ensures s.Done? <==> (gallery != null && AlbumIndex(old(gallery.albums), albumId).Some?
      && var al := old(gallery.albums)[AlbumIndex(old(gallery.albums), albumId).value];
         PhotoIndex(al.photos, photoId).Some?
         && MayCurate(a, classId, al.photos[PhotoIndex(al.photos, photoId).value].uploadedBy))
    ensures s.Done? ==>
      var k := AlbumIndex(old(gallery.albums), albumId).value;
      var al := old(gallery.albums)[k];
      var photo := al.photos[PhotoIndex(al.photos, photoId).value];
      gallery.albums == old(gallery.albums)[k := AfterPhotoDeleted(al, photo)]
      && gallery.recentPhotos == WithoutId(old(gallery.recentPhotos), photoId)
      && gallery.lastUpdatedBy == Some(a.id)
  {
    if gallery == null {
      return Failed(NotFound);
    }
    var k := AlbumIndex(gallery.albums, albumId);
    if k.None? {
      return Failed(NotFound);
    }
    var al := gallery.albums[k.value];
    var j := PhotoIndex(al.photos, photoId);
    if j.None? {
      return Failed(NotFound);
    }
    var photo := al.photos[j.value];
    if !MayCurate(a, classId, photo.uploadedBy) {
      return Failed(Forbidden);
    }
    var al' := AfterPhotoDeleted(al, photo);
    var recent := WithoutId(gallery.recentPhotos, photoId);
    ShrinkKeepsOk(gallery.albums, gallery.recentPhotos, k.value, al', recent);
    gallery.albums := gallery.albums[k.value := al'];
    gallery.recentPhotos := recent;
    gallery.lastUpdatedBy := Some(a.id);
    s := Done;
  }

  /** The album after `updateAlbum`: each field given (a truthy title, event,
      date or visibility; any description) replaces the stored one, trimmed. */
  function Edited(al: Album, title: Option<string>, description: Option<string>, event: Option<string>,
                  eventDate: Option<Time>, visibility: Option<Visibility>): (r: Album)
    ensures r.id == al.id && r.photos == al.photos && r.coverImage == al.coverImage && r.createdBy == al.createdBy
    ensures r.title == (if Truthy(title) then Trim(title.value) else al.title)
    ensures r.description == (if description.Some? then TrimOpt(description) else al.description)
    ensures r.event == (if Truthy(event) then TrimOpt(event) else al.event)
    ensures r.eventDate == (if eventDate.Some? then eventDate else al.eventDate)
    ensures r.visibility == (if visibility.Some? then visibility.value else al.visibility)
  {
    Album(al.id, if Truthy(title) then Trim(title.value) else al.title,
          if description.Some? then TrimOpt(description) else al.description,
          al.coverImage, al.photos, al.createdBy, al.createdAt,
          if Truthy(event) then TrimOpt(event) else al.event,
          if eventDate.Some? then eventDate else al.eventDate,
          if visibility.Some? then visibility.value else al.visibility)
  }

  /** An update that supplies nothing leaves the album as it was. */
  lemma EditNothing(al: Album)
    ensures Edited(al, None, None, None, None, None) == al
  {
  }

  /** `updateAlbum`: 404 without a gallery or album, 403 unless the caller
      created it or may curate; a title that trims to nothing or an unknown
      visibility fails the save. */
  method UpdateAlbum(a: Actor, classId: ClassId, albumId: ItemId, title: Option<string>, description: Option<string>,
                     event: Option<string>, eventDate: Option<Time>, visibility: Option<string>, gallery: Gallery?)
    returns (s: Status)
    requires gallery != null ==> gallery.Valid()
    modifies gallery
    ensures gallery == null ==> s == Failed(NotFound)
    ensures gallery != null ==> gallery.Valid()
    ensures gallery != null && s.Failed? ==> unchanged(gallery)
    ensures gallery != null && AlbumIndex(old(gallery.albums), albumId).None? ==> s == Failed(NotFound)
    ensures (gallery != null && AlbumIndex(old(gallery.albums), albumId).Some?
             && !MayCurate(a, classId, old(gallery.albums)[AlbumIndex(old(gallery.albums), albumId).value].createdBy))
            ==> s == Failed(Forbidden)
    ensures (gallery != null && AlbumIndex(old(gallery.albums), albumId).Some?
             && MayCurate(a, classId, old(gallery.albums)[AlbumIndex(old(gallery.albums), albumId).value].createdBy)
             && !((Truthy(title) ==> Trim(title.value) != "") && (Truthy(visibility) ==> ParseVisibility(visibility.value).Some?)))
            ==> s == Failed(ServerError)
    ensures s.Done? <==> (gallery != null && AlbumIndex(old(gallery.albums), albumId).Some?
      && MayCurate(a, classId, old(gallery.albums)[AlbumIndex(old(gallery.albums), albumId).value].createdBy)
      && (Truthy(title) ==> Trim(title.value) != "")
      && (Truthy(visibility) ==> ParseVisibility(visibility.value).Some?))
    ensures s.Done? ==>
      var k := AlbumIndex(old(gallery.albums), albumId).value;
      gallery.albums == old(gallery.albums)[k := Edited(old(gallery.albums)[k], title, description, event, eventDate,
                                                        if Truthy(visibility) then ParseVisibility(visibility.value) else None)]
      && gallery.recentPhotos == old(gallery.recentPhotos) && gallery.lastUpdatedBy == Some(a.id)
  {
    if gallery == null {
      return Failed(NotFound);
    }
    var k := AlbumIndex(gallery.albums, albumId);
    if k.None? {
      return Failed(NotFound);
    }
    var al := gallery.albums[k.value];
    if !MayCurate(a, classId, al.createdBy) {
      return Failed(Forbidden);
    }
    if Truthy(title) && Trim(title.value) == "" {
      return Failed(ServerError);
    }
    var v := if Truthy(visibility) then ParseVisibility(visibility.value) else None;
    if Truthy(visibility) && v.None? {
      return Failed(ServerError);
    }
    var al' := Edited(al, title, description, event, eventDate, v);
    ShrinkKeepsOk(gallery.albums, gallery.recentPhotos, k.value, al', gallery.recentPhotos);
    gallery.albums := gallery.albums[k.value := al'];
    gallery.lastUpdatedBy := Some(a.id);
    s := Done;
  }

  /** The recent list after dropping, one photo at a time, every photo of a
      deleted album. */
  function DropAll(recent: seq<Photo>, photos: seq<Photo>): seq<Photo>
  {
    if photos == [] then recent
    else WithoutId(DropAll(recent, photos[..|photos| - 1]), photos[|photos| - 1].id)
  }

  /** The ids of a list of photos. */
  function PhotoIds(photos: seq<Photo>): set<ItemId>
  {
    set q | q in photos :: q.id
  }

  /** What survives is exactly the recent photos whose id is not the id of any
      photo of the album. */
  lemma {:induction false} DropAllKeeps(recent: seq<Photo>, photos: seq<Photo>)
    ensures |DropAll(recent, photos)| <= |recent|
    ensures forall p :: p in DropAll(recent, photos) <==> p in recent && p.id !in PhotoIds(photos)
  {
    if photos != [] {
      DropAllKeeps(recent, photos[..|photos| - 1]);
      PhotoIdsOfInit(photos);
    }
  }

  lemma PhotoIdsOfInit(photos: seq<Photo>)
    requires photos != []
    ensures PhotoIds(photos) == PhotoIds(photos[..|photos| - 1]) + {photos[|photos| - 1].id}
  {
    assert photos == photos[..|photos| - 1] + [photos[|photos| - 1]];
  }

  /** The `for ... of album.photos` loop of `deleteAlbum` over the recent
      list. */
  method DropRecent(recent: seq<Photo>, photos: seq<Photo>) returns (r: seq<Photo>)
    ensures r == DropAll(recent, photos)
  {
    r := recent;
    var i := 0;
    while i < |photos|
      invariant 0 <= i <= |photos|
      invariant r == DropAll(recent, photos[..i])
    {
      r := WithoutId(r, photos[i].id);
      assert photos[..i + 1][..i] == photos[..i];
      i := i + 1;
    }
    assert photos[..i] == photos;
  }

  /** `deleteAlbum`: 404 without a gallery or album, 403 unless the caller
      created it or may curate; then none of its photos stay in the recent
      list and every album with that id is removed. */
  method DeleteAlbum(a: Actor, classId: ClassId, albumId: ItemId, gallery: Gallery?) returns (s: Status)
    requires gallery != null ==> gallery.Valid()
    modifies gallery
    ensures gallery == null ==> s == Failed(NotFound)
    ensures gallery != null ==> gallery.Valid()
    ensures gallery != null && s.Failed? ==> unchanged(gallery)
    ensures gallery != null && AlbumIndex(old(gallery.albums), albumId).None? ==> s == Failed(NotFound)
    ensures (gallery != null && AlbumIndex(old(gallery.albums), albumId).Some?
             && !MayCurate(a, classId, old(gallery.albums)[AlbumIndex(old(gallery.albums), albumId).value].createdBy))
            ==> s == Failed(Forbidden)
    ensures s.Done? <==> (gallery != null && AlbumIndex(old(gallery.albums), albumId).Some?
      && MayCurate(a, classId, old(gallery.albums)[AlbumIndex(old(gallery.albums), albumId).value].createdBy))
    ensures s.Done? ==>
      var al := old(gallery.albums)[AlbumIndex(old(gallery.albums), albumId).value];
      gallery.recentPhotos == DropAll(old(gallery.recentPhotos), al.photos)
      && (forall p, q :: p in gallery.recentPhotos && q in al.photos ==> p.id != q.id)
      && gallery.albums == Filter(old(gallery.albums), (x: Album) => x.id != albumId)
      && gallery.lastUpdatedBy == Some(a.id)
  {
    if gallery == null {
      return Failed(NotFound);
    }
    var k := AlbumIndex(gallery.albums, albumId);
    if k.None? {
      return Failed(NotFound);
    }
    var al := gallery.albums[k.value];
    if !MayCurate(a, classId, al.createdBy) {
      return Failed(Forbidden);
    }
    var recent := DropRecent(gallery.recentPhotos, al.photos);
    DropAllKeeps(gallery.recentPhotos, al.photos);
    gallery.recentPhotos := recent;
    gallery.albums := Filter(gallery.albums, (x: Album) => x.id != albumId);
    gallery.lastUpdatedBy := Some(a.id);
    s := Done;
  }
}
