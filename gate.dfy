/** What both versions of `gallery_detail` share: the request, the outcome and the password test. */
module Gate {
  import opened Wrappers
  import opened Models

  /** The parts of an HTTP request the gate reads: its HTTP method (`verb`) and its POST form. */
  datatype Request = Request(verb: string, post: map<string, string>)

  /** The page a request ends on: not found, the detail view, or the password prompt. */
  datatype Outcome = NotFound | Detail(gallery: Gallery) | Prompt(gallery: Gallery, error: Option<string>)

  /** The error shown on the prompt after a rejected password. */
  const WrongPassword: string := "Senha incorreta. Tente novamente."

  /** `get_object_or_404`: the row with that primary key, if any. */
  function Find(gs: seq<Gallery>, id: nat): (r: Option<Gallery>)
    ensures r.None? <==> !HasGallery(gs, id)
    ensures r.Some? ==> r.value in gs && r.value.id == id
  {
    if gs == [] then None
    else if gs[0].id == id then Some(gs[0])
    else
      assert forall g :: g in gs ==> g == gs[0] || g in gs[1..];
      Find(gs[1..], id)
  }

  /** With unique primary keys the row found is the only one with that key. */
  lemma FindUnique(gs: seq<Gallery>, g: Gallery)
    requires Seqs.UniqueBy(gs, GalleryId) && g in gs
    ensures Find(gs, g.id) == Some(g)
  {
    var f := Find(gs, g.id).value;
    var i :| 0 <= i < |gs| && gs[i] == g;
    var j :| 0 <= j < |gs| && gs[j] == f;
    assert GalleryId(gs[i]) == GalleryId(gs[j]);
  }

  /** `request.POST.get('password')`. */
  function SubmittedPassword(req: Request): Option<string>
  {
    if "password" in req.post then Some(req.post["password"]) else None
  }

  /** `submitted_password and gallery.check_gallery_password(submitted_password)`. */
  predicate PasswordAccepted(g: Gallery, req: Request, verify: (string, string) -> bool)
  {
    var pw := SubmittedPassword(req);
    Truthy(pw) && CheckGalleryPassword(g, pw.value, verify)
  }

  /** Only a present, non-empty password that the hasher verifies is accepted. */
  lemma AcceptedIff(g: Gallery, req: Request, verify: (string, string) -> bool)
    requires IsProtected(g)
    ensures PasswordAccepted(g, req, verify) <==>
              "password" in req.post && req.post["password"] != "" &&
              verify(req.post["password"], g.password.value)
  {
  }
}
