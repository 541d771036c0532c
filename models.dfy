/**
 * The two tables of the gallery app and the rules the `Gallery` model adds to
 * them: the protection test, password checking, hash-on-save and the cover
 * image, plus a store whose save and delete keep the foreign key intact.
 * The framework's `make_password` and `check_password` are left abstract:
 * callers supply them as the functions `hash` and `verify`.
 */
module Models {
  import opened Wrappers
  import opened Seqs

  /** A row of the gallery table; `password` is a nullable column. */
  datatype Gallery = Gallery(id: nat, title: string, description: string, password: Option<string>)

  /** A row of the photo table; `gallery` is the foreign key, `image` the stored file name. */
  datatype Photo = Photo(id: nat, gallery: nat, image: string, caption: string)

  /** Tags of the hash formats that `save` treats as already hashed. */
  const HashedPrefixes: seq<string> := ["pbkdf2_sha256$", "bcrypt$", "argon2$"]

  function GalleryId(g: Gallery): nat { g.id }
  function PhotoId(p: Photo): nat { p.id }

  /** Python truthiness of a nullable text column: set and non-empty. */
  predicate Truthy(s: Option<string>)
  {
    s.Some? && s.value != ""
  }

  predicate IsProtected(g: Gallery)
  {
    Truthy(g.password)
  }

  lemma ProtectedIffPasswordSet(g: Gallery)
    ensures IsProtected(g) <==> g.password != None && g.password != Some("")
  {
  }

  /** `check_gallery_password`: fails outright on a public gallery, else asks the hasher. */
  function CheckGalleryPassword(g: Gallery, raw: string, verify: (string, string) -> bool): (ok: bool)
    ensures !IsProtected(g) ==> !ok
    ensures IsProtected(g) ==> ok == verify(raw, g.password.value)
  {
    if !Truthy(g.password) then false else verify(raw, g.password.value)
  }

  /** The `startswith` test on the three hash tags. */
  predicate LooksHashed(p: string)
  {
    exists k :: 0 <= k < |HashedPrefixes| && HashedPrefixes[k] <= p
  }

  /** The password column after `save`: hashed unless empty or already tagged. */
  function NormalisedPassword(pw: Option<string>, hash: string -> string): Option<string>
  {
    if Truthy(pw) && !LooksHashed(pw.value) then Some(hash(pw.value)) else pw
  }

  /** The instance as `save` leaves it: only the password may change. */
  function HashOnSave(g: Gallery, hash: string -> string): (r: Gallery)
    ensures r.id == g.id && r.title == g.title && r.description == g.description
  {
    g.(password := NormalisedPassword(g.password, hash))
  }

  lemma SaveKeepsEmptyPassword(g: Gallery, hash: string -> string)
    requires !Truthy(g.password)
    ensures HashOnSave(g, hash) == g
  {
  }

  lemma SaveKeepsTaggedPassword(g: Gallery, hash: string -> string, k: nat)
    requires g.password.Some? && k < |HashedPrefixes| && HashedPrefixes[k] <= g.password.value
    ensures HashOnSave(g, hash) == g
  {
  }

  lemma SaveHashesPlaintext(g: Gallery, hash: string -> string)
    requires Truthy(g.password)
    requires forall k :: 0 <= k < |HashedPrefixes| ==> !(HashedPrefixes[k] <= g.password.value)
    ensures HashOnSave(g, hash).password == Some(hash(g.password.value))
  {
  }

  /**
   * With a hasher whose outputs are non-empty and verify exactly their own
   * plaintext, a gallery saved with plaintext `p` accepts `p` and nothing else.
   */
  lemma SavedPlaintextVerifies(g: Gallery, hash: string -> string, verify: (string, string) -> bool, raw: string)
    requires Truthy(g.password) && !LooksHashed(g.password.value)
    requires forall t :: hash(t) != ""
    requires forall s, t :: verify(s, hash(t)) <==> s == t
    ensures IsProtected(HashOnSave(g, hash))
    ensures CheckGalleryPassword(HashOnSave(g, hash), raw, verify) <==> raw == g.password.value
  {
    var saved := HashOnSave(g, hash);
    assert saved.password == Some(hash(g.password.value));
    assert hash(g.password.value) != "";
  }

  /** When every hash carries a recognised tag, saving twice equals saving once. */
  lemma SaveIdempotent(g: Gallery, hash: string -> string)
    requires forall t :: LooksHashed(hash(t))
    ensures HashOnSave(HashOnSave(g, hash), hash) == HashOnSave(g, hash)
  {
    if Truthy(g.password) && !LooksHashed(g.password.value) {
      assert LooksHashed(hash(g.password.value));
    }
  }

  /**
   * A hash format outside the three tags is taken for plaintext, so with a
   * hasher producing `bcrypt_sha256$` hashes a re-save hashes the hash again.
   */
  lemma ResaveRehashesOtherFormats(g: Gallery, hash: string -> string)
    requires Truthy(g.password) && !LooksHashed(g.password.value)
    requires forall t :: "bcrypt_sha256$" <= hash(t)
    ensures HashOnSave(HashOnSave(g, hash), hash).password == Some(hash(hash(g.password.value)))
  {
    var once := hash(g.password.value);
    assert "bcrypt_sha256$" <= once;
    assert !LooksHashed(once) by {
      assert once[0] == 'b' && once[6] == '_';
      assert !(HashedPrefixes[0] <= once) by { assert HashedPrefixes[0][0] == 'p'; }
      assert !(HashedPrefixes[1] <= once) by { assert HashedPrefixes[1][6] == '$'; }
      assert !(HashedPrefixes[2] <= once) by { assert HashedPrefixes[2][0] == 'a'; }
    }
  }

  /** `photos.first()`: the gallery's photo with the smallest primary key. */
  function FirstPhoto(photos: seq<Photo>, galleryId: nat): (r: Option<Photo>)
    ensures r.None? <==> forall p :: p in photos ==> p.gallery != galleryId
    ensures r.Some? ==> r.value in photos && r.value.gallery == galleryId
    ensures r.Some? ==> forall p :: p in photos && p.gallery == galleryId ==> r.value.id <= p.id
  {
    if photos == [] then None
    else
      var rest := FirstPhoto(photos[1..], galleryId);
      var p := photos[0];
      assert forall q :: q in photos ==> q == p || q in photos[1..];
      if p.gallery != galleryId then rest
      else if rest.Some? && rest.value.id < p.id then rest
      else Some(p)
  }

  /** `get_cover_image`: the first photo's image, or none when the gallery is empty. */
  function CoverImage(photos: seq<Photo>, galleryId: nat): (r: Option<string>)
    ensures r.None? <==> forall p :: p in photos ==> p.gallery != galleryId
    ensures r.Some? ==> exists p :: p in photos && p.gallery == galleryId && p.image == r.value &&
                                    forall q :: q in photos && q.gallery == galleryId ==> p.id <= q.id
  {
    match FirstPhoto(photos, galleryId)
    case None => None
    case Some(p) => Some(p.image)
  }

  /** Some row of `gs` has primary key `id`. */
  predicate HasGallery(gs: seq<Gallery>, id: nat)
  {
    exists g :: g in gs && g.id == id
  }

  /** Writing `g` by primary key: an UPDATE of the row with its id, else an INSERT. */
  function Upsert(gs: seq<Gallery>, g: Gallery): (r: seq<Gallery>)
    ensures forall h :: h in r <==> h == g || (h in gs && h.id != g.id)
    ensures UniqueBy(gs, GalleryId) ==> UniqueBy(r, GalleryId)
  {
    if HasGallery(gs, g.id) then
      var r := seq(|gs|, i requires 0 <= i < |gs| => if gs[i].id == g.id then g else gs[i]);
      assert forall i :: 0 <= i < |gs| ==> r[i].id == gs[i].id;
      assert forall h :: h in gs && h.id != g.id ==> h in r by {
        forall h | h in gs && h.id != g.id ensures h in r {
          var i :| 0 <= i < |gs| && gs[i] == h;
          assert r[i] == h;
        }
      }
      assert g in r by {
        var w :| w in gs && w.id == g.id;
        var i :| 0 <= i < |gs| && gs[i] == w;
        assert r[i] == g;
      }
      r
    else
      gs + [g]
  }

  /** Both tables; the database keeps primary keys unique and every photo's gallery present. */
  class Store {
    var galleries: seq<Gallery>
    var photos: seq<Photo>

    ghost predicate Valid()
      reads this
    {
      && UniqueBy(galleries, GalleryId)
      && UniqueBy(photos, PhotoId)
      && forall p :: p in photos ==> HasGallery(galleries, p.gallery)
    }

    constructor ()
      ensures Valid() && galleries == [] && photos == []
    {
      galleries := [];
      photos := [];
    }

    /** `Gallery.save`: normalise the password on the instance, then write the row. */
    method SaveGallery(g: Gallery, hash: string -> string) returns (saved: Gallery)
      requires Valid()
      modifies this
      ensures Valid()
      ensures saved == HashOnSave(g, hash)
      ensures galleries == Upsert(old(galleries), saved)
      ensures photos == old(photos)
    {
      saved := g;
      if Truthy(saved.password) && !LooksHashed(saved.password.value) {
        saved := saved.(password := Some(hash(saved.password.value)));
      }
      galleries := Upsert(galleries, saved);
      forall p | p in photos ensures HasGallery(galleries, p.gallery) {
        var w :| w in old(galleries) && w.id == p.gallery;
        if w.id != saved.id {
          assert w in galleries;
        } else {
          assert saved in galleries;
        }
      }
    }

    /**
     * Inserting a photo row. The insert is refused when its gallery does not
     * exist (the foreign key) or its primary key is taken.
     */
    method AddPhoto(p: Photo) returns (ok: bool)
      requires Valid()
      modifies this
      ensures Valid()
      ensures ok <==> HasGallery(old(galleries), p.gallery) && forall q :: q in old(photos) ==> q.id != p.id
      ensures galleries == old(galleries)
      ensures photos == if ok then old(photos) + [p] else old(photos)
    {
      ok := HasGallery(galleries, p.gallery) && forall q :: q in photos ==> q.id != p.id;
      if ok {
        photos := photos + [p];
        assert forall i :: 0 <= i < |photos| - 1 ==> photos[i] in old(photos);
      }
    }

    /** Deleting a gallery row cascades to every photo that references it. */
    method DeleteGallery(id: nat)
      requires Valid()
      modifies this
      ensures Valid()
      ensures galleries == Filter(old(galleries), (g: Gallery) => g.id != id)
      ensures photos == Filter(old(photos), (p: Photo) => p.gallery != id)
      ensures forall p :: p in photos <==> p in old(photos) && p.gallery != id
    {
      var keepGallery := (g: Gallery) => g.id != id;
      var keepPhoto := (p: Photo) => p.gallery != id;
      FilterUnique(galleries, keepGallery, GalleryId);
      FilterUnique(photos, keepPhoto, PhotoId);
      galleries := Filter(galleries, keepGallery);
      photos := Filter(photos, keepPhoto);
      forall p | p in photos ensures HasGallery(galleries, p.gallery) {
        var w :| w in old(galleries) && w.id == p.gallery;
        assert w in galleries;
      }
    }
  }

  /** A cascade delete leaves the first photo of every other gallery where it was. */
  lemma {:induction false} CascadeKeepsOtherFirstPhotos(photos: seq<Photo>, id: nat, other: nat)
    requires other != id
    ensures FirstPhoto(Filter(photos, (q: Photo) => q.gallery != id), other) == FirstPhoto(photos, other)
  {
    var keep := (q: Photo) => q.gallery != id;
    if photos != [] {
      CascadeKeepsOtherFirstPhotos(photos[1..], id, other);
      var rest := Filter(photos[1..], keep);
      if keep(photos[0]) {
        assert Filter(photos, keep) == [photos[0]] + rest;
        assert ([photos[0]] + rest)[1..] == rest;
      } else {
        assert Filter(photos, keep) == rest;
      }
    }
  }

  /** After a cascade delete the gallery has no cover image. */
  lemma DeletedGalleryHasNoCover(photos: seq<Photo>, id: nat)
    ensures CoverImage(Filter(photos, (q: Photo) => q.gallery != id), id).None?
  {
  }
}
