# Gallery access model

A Dafny model of the logic of a small photo-gallery web app. The app lists
galleries, searches them by title or description, and can put a gallery behind
a password. The model covers four things:

- The `Gallery` and `Photo` tables and the rules the `Gallery` model adds.
  These are the protection test, the password check, hash-on-save and the
  cover image. The model also has a store whose save and delete keep primary
  keys unique and the photo foreign key intact.
- `gallery_list`: an empty query lists every gallery. A non-empty query lists
  the galleries whose title or description contains it, ignoring case. Both
  view modules hold the same function, so it is modelled once, in `Listing`.
- The current `gallery_detail`, with no memory between requests
  (`StatelessViews`).
- The earlier `gallery_detail`, which remembers a successful password in the
  session under `gallery_auth_<id>` (`SessionViews`). Lemmas prove where the
  two versions differ.

Some operations are left abstract and passed in as functions:

- the framework's password hasher: `hash` for `make_password`, `verify` for
  `check_password`;
- the database's case folding for `icontains` (`lower`).

A request is its HTTP method (`verb`) and its POST form. A response is an
`Outcome`: `NotFound`, `Detail(gallery)` or `Prompt(gallery, error)`. It is
not rendered HTML. The session-caching view is a method that changes a
`Session` object in place. The method is proved equal to the function
`DetailResponse`, and the lemmas are stated about that function.

Modules: `Wrappers` (Option), `Seqs` (filter, unique keys), `Decimal`
(rendering an id into the session key), `Text` (substring tests), `Models`,
`Listing`, `Gate` (what both detail views share), `StatelessViews`,
`SessionViews`.

Two details of the code's behaviour are worth stating:

- The cover image is the image of the photo with the smallest primary key. An
  unordered related manager's `.first()` orders by primary key.
- Hashing is skipped for any value that starts with `pbkdf2_sha256$`, `bcrypt$`
  or `argon2$`. So a plaintext password that happens to start with one of those
  tags is stored as written (`Models.SaveKeepsTaggedPassword`). "The correct
  plaintext verifies" therefore holds only for plaintext without such a tag
  (`Models.SavedPlaintextVerifies`).

## Model

| member | source | states |
|---|---|---|
| `Models.ProtectedIffPasswordSet` | Gallery/galleries/galleries/models.py:31-33 | a gallery is protected exactly when its password is neither null nor the empty string |
| `Models.CheckGalleryPassword` | Gallery/galleries/galleries/models.py:37-43 | fails for every input when the gallery has no password; otherwise it is the hasher's verdict on (raw, stored) |
| `Models.HashOnSave` | Gallery/galleries/galleries/models.py:18-26 | saving never changes id, title or description |
| `Models.SaveKeepsEmptyPassword` | Gallery/galleries/galleries/models.py:22 | a null or empty password is left unchanged by save |
| `Models.SaveKeepsTaggedPassword` | Gallery/galleries/galleries/models.py:22 | a password starting with one of the three hash tags is left unchanged by save |
| `Models.SaveHashesPlaintext` | Gallery/galleries/galleries/models.py:22-24 | any other non-empty password is replaced by `hash(password)` |
| `Models.SavedPlaintextVerifies` | Gallery/galleries/galleries/models.py:22-43 | with a hasher whose outputs are non-empty and verify only their own plaintext, a gallery saved with untagged plaintext p stays protected and accepts p and nothing else |
| `Models.SaveIdempotent` | Gallery/galleries/galleries/models.py:22-24 | when every hash carries a recognised tag, saving twice gives the same row as saving once |
| `Models.ResaveRehashesOtherFormats` | Gallery/galleries/galleries/models.py:22-24 | for every hasher whose outputs start with `bcrypt_sha256$` and every untagged plaintext p, a second save stores `hash(hash(p))`: the stored hash is hashed again |
| `Models.FirstPhoto` | Gallery/galleries/galleries/models.py:47 | none exactly when the gallery has no photo; otherwise a photo of that gallery whose key is the smallest among its photos |
| `Models.CoverImage` | Gallery/galleries/galleries/models.py:45-50 | none exactly when the gallery has no photo; otherwise the image of its photo with the smallest key |
| `Models.Upsert` | Gallery/galleries/galleries/models.py:26 | after a write the table holds the saved row and every other row whose key differs, nothing else; unique keys stay unique |
| `Models.Store.SaveGallery` | Gallery/galleries/galleries/models.py:18-26 | the instance gets the normalised password, the row is written by key, photos are untouched, and the store's invariant (unique keys, every photo's gallery present) is kept |
| `Models.Store.AddPhoto` | Gallery/galleries/galleries/models.py:52-58 | a photo row is inserted exactly when its gallery exists and its key is free; the invariant is kept |
| `Models.Store.DeleteGallery` | Gallery/galleries/galleries/models.py:54-58 | deleting a gallery removes its row and exactly the photos that reference it, keeps every other row in order, and keeps the invariant |
| `Models.CascadeKeepsOtherFirstPhotos` | Gallery/galleries/galleries/models.py:45-58 | a cascade delete does not change the first photo of any other gallery |
| `Models.DeletedGalleryHasNoCover` | Gallery/galleries/galleries/models.py:45-58 | after the cascade, the deleted gallery has no cover image |
| `Text.Contains` | Gallery/galleries/galleries/views.py:12-13 | the offset-by-offset search is true exactly when the needle occurs somewhere in the text |
| `Text.ExactInfixMatches` | Gallery/galleries/galleries/views.py:12-13 | a query that occurs verbatim matches case-insensitively under any folding |
| `Listing.GalleryList` | Gallery/galleries/galleries/views.py:6-22 | the query is echoed back; an empty query lists every gallery, in the model's table order; a non-empty query lists exactly the galleries whose title or description contains it case-insensitively; unique rows stay unique (no duplicates) |
| `Listing.MissingQueryIsEmptyQuery` | Gallery/galleries/views.py:8-16 | a missing `q` and an empty `q` give the same page |
| `Listing.TitleMatchIsListed` | Gallery/galleries/views.py:10-14 | a gallery whose title contains the query verbatim is listed |
| `Listing.ListingKeepsOrder` | Gallery/galleries/views.py:10-16 | in the model's table order, listing a concatenation is the concatenation of the listings |
| `Gate.Find` | Gallery/galleries/galleries/views.py:26 | the lookup finds a row with the requested key, or none when no row has it |
| `Gate.FindUnique` | Gallery/galleries/views.py:28 | with unique keys, the row found is the one with that key |
| `Gate.AcceptedIff` | Gallery/galleries/galleries/views.py:35-39 | on a protected gallery a submission is accepted exactly when the form has a non-empty password that the hasher verifies |
| `StatelessViews.GalleryDetail` | Gallery/galleries/views.py:27-56 | not found exactly when no gallery has the id; otherwise the page is about that gallery |
| `StatelessViews.UnknownGalleryNotFound` | Gallery/galleries/views.py:28 | an unknown id is not found, before any gate logic |
| `StatelessViews.UnprotectedAlwaysShown` | Gallery/galleries/views.py:31-33 | an unprotected gallery is always shown, whatever the method or password |
| `StatelessViews.VerifiedPostShown` | Gallery/galleries/views.py:36-44 | a POST with a non-empty password that verifies shows the gallery |
| `StatelessViews.RejectedPostPromptsWithError` | Gallery/galleries/views.py:40-51 | a POST with a missing, empty or failing password gives the prompt with the error message |
| `StatelessViews.ViewAlwaysPrompts` | Gallery/galleries/views.py:53-56 | any non-POST request to a protected gallery gives the prompt without error |
| `StatelessViews.ShownIff` | Gallery/galleries/views.py:27-56 | a gallery is shown exactly when it exists and is public, or the request is a POST whose password is accepted |
| `StatelessViews.DependsOnlyOnMethodAndPassword` | Gallery/galleries/views.py:36-56 | two requests that agree on being a POST and, for a POST, on the submitted password get the same outcome |
| `Decimal.ParseShow` | Gallery/galleries/galleries/views.py:44 | the decimal rendering of an id in the session key reads back to that id |
| `Decimal.ShowInjective` | Gallery/galleries/galleries/views.py:44 | distinct ids render to distinct digit strings |
| `SessionViews.AuthKeyInjective` | Gallery/galleries/galleries/views.py:44 | distinct galleries have distinct session keys |
| `SessionViews.DetailResponse` | Gallery/galleries/galleries/views.py:25-65 | not found exactly when no gallery has the id; the page is about the gallery with that id; the session is either unchanged or has that gallery's key set to true |
| `SessionViews.GalleryDetail` | Gallery/galleries/galleries/views.py:25-65 | the view's outcome and its in-place change to the session are those of `DetailResponse` |
| `SessionViews.UnknownGalleryNotFound` | Gallery/galleries/galleries/views.py:26 | an unknown id is not found and the session is untouched |
| `SessionViews.UnprotectedAlwaysShown` | Gallery/galleries/galleries/views.py:29-31 | an unprotected gallery is shown, whatever the method, password or session, and the session is untouched |
| `SessionViews.VerifiedPostShownAndRemembered` | Gallery/galleries/galleries/views.py:39-47 | a POST with a non-empty verified password shows the gallery and sets `gallery_auth_<id>` to true |
| `SessionViews.RejectedPostKeepsSession` | Gallery/galleries/galleries/views.py:48-54 | a POST with a missing, empty or failing password gives the prompt with the error message and leaves the session as it was |
| `SessionViews.RememberedViewShown` | Gallery/galleries/galleries/views.py:59-61 | a non-POST request to a protected gallery whose session flag is truthy shows the gallery |
| `SessionViews.FreshViewPrompts` | Gallery/galleries/galleries/views.py:63-65 | a non-POST request to a protected gallery without the flag gives the prompt without error |
| `SessionViews.FlagIsPerGallery` | Gallery/galleries/galleries/views.py:44-59 | a request about gallery a never changes whether gallery b is flagged |
| `SessionViews.LoginDoesNotLeak` | Gallery/galleries/galleries/views.py:44-59 | authenticating gallery a never changes the outcome of any later request to gallery b |
| `SessionViews.FlagPersists` | Gallery/galleries/galleries/views.py:44-59 | no sequence of requests clears a set flag |
| `SessionViews.LoginRemembered` | Gallery/galleries/galleries/views.py:39-61 | after an accepted POST, and any requests after it, a plain view of that gallery is shown |
| `SessionViews.VariantsDifferOnlyOnRememberedViews` | Gallery/galleries/views.py:53-56 | the two versions agree on every input except a non-POST request to a protected gallery whose flag is set; there the older shows the gallery and the current prompts without error |

## Left out

- Rendering: templates, context dictionaries and HTML. The outcome datatype stands for the rendered page.
- The database and ORM: queries, `.distinct()`, transactions and constraint errors other than the foreign key and primary key checks in `Models.Store.AddPhoto`. Tables are sequences. The search adds no duplicate rows when the keys are unique; `.distinct()` guarantees no duplicate rows.
- Result order: the database gives no order for either query (no `ordering`, no `order_by`, and `SELECT DISTINCT` may reorder). The model fixes one table order, and `Listing.ListingKeepsOrder` holds only for that choice.
- Case folding: `lower` is a per-character function. A database collation can fold multi-character sequences, which this does not capture.
- The hasher: `make_password` and `check_password` are parameters. Nothing is assumed about them except in the lemmas whose `requires` state hasher properties.
- Multi-valued query strings and forms: `request.GET` and `request.POST` may carry several values per key. The maps in `Listing.QueryParam` and `Gate.SubmittedPassword` hold the one value `.get` returns, the last one sent.
- `make_password` draws a fresh random salt on every call. The model fixes one hash per plaintext (`hash` is a function). No lemma relies on this.
- `Models.SaveIdempotent`: holds only when every hash carries one of the three recognised tags. Django's `bcrypt_sha256$`, `scrypt$` and `pbkdf2_sha1$` formats are not among them, so with such a hasher a re-save hashes the stored hash again (`Models.ResaveRehashesOtherFormats`).
- The arguments `Gallery.save` forwards to the database save (`force_insert`, `force_update`, `using`, `update_fields`): `Models.Store.SaveGallery` always writes the whole row. With `update_fields` naming other columns, Django hashes the password on the instance but does not store it; the model does not capture that.
- Session values: they are modelled by their Python truthiness (`map<string, bool>`). Session persistence, expiry and concurrent requests are not modelled: one request receives and returns one session.
- `image.url` resolution and file storage: the cover image is the stored image name. The `created_at` and `uploaded_at` timestamps are clock values and are omitted.
- Column lengths (`max_length` 200 and 128) and the `__str__` methods: these are database constraints and display, not logic.
- The admin registration (Gallery/galleries/admin.py) and the URL tables (Gallery/galleries/galleries/urls.py, Gallery/photon_gallery/urls.py): framework configuration with no behaviour of its own. The URL converter makes gallery ids non-negative integers, so they are `nat`.
- Primary-key assignment for new rows: callers supply the key.
