/**
 * The current `gallery_detail`: no memory between requests, so a protected
 * gallery is shown only in answer to a POST that carries its password.
 */
module StatelessViews {
  import opened Wrappers
  import opened Models
  import opened Gate

  function GalleryDetail(gs: seq<Gallery>, galleryId: nat, req: Request, verify: (string, string) -> bool): (o: Outcome)
    ensures o.NotFound? <==> !HasGallery(gs, galleryId)
    ensures !o.NotFound? ==> o.gallery == Find(gs, galleryId).value
  {
    match Find(gs, galleryId)
    case None => NotFound
    case Some(g) =>
      if !IsProtected(g) then Detail(g)
      else if req.verb == "POST" then
        if PasswordAccepted(g, req, verify) then Detail(g)
        else Prompt(g, Some(WrongPassword))
      else Prompt(g, None)
  }

  lemma UnknownGalleryNotFound(gs: seq<Gallery>, galleryId: nat, req: Request, verify: (string, string) -> bool)
    requires !HasGallery(gs, galleryId)
    ensures GalleryDetail(gs, galleryId, req, verify) == NotFound
  {
  }

  lemma UnprotectedAlwaysShown(gs: seq<Gallery>, g: Gallery, req: Request, verify: (string, string) -> bool)
    requires Find(gs, g.id) == Some(g) && !IsProtected(g)
    ensures GalleryDetail(gs, g.id, req, verify) == Detail(g)
  {
  }

  lemma VerifiedPostShown(gs: seq<Gallery>, g: Gallery, req: Request, verify: (string, string) -> bool)
    requires Find(gs, g.id) == Some(g) && IsProtected(g) && req.verb == "POST"
    requires "password" in req.post && req.post["password"] != ""
    requires verify(req.post["password"], g.password.value)
    ensures GalleryDetail(gs, g.id, req, verify) == Detail(g)
  {
  }

  lemma RejectedPostPromptsWithError(gs: seq<Gallery>, g: Gallery, req: Request, verify: (string, string) -> bool)
    requires Find(gs, g.id) == Some(g) && IsProtected(g) && req.verb == "POST"
    requires "password" !in req.post || req.post["password"] == "" ||
             !verify(req.post["password"], g.password.value)
    ensures GalleryDetail(gs, g.id, req, verify) == Prompt(g, Some(WrongPassword))
  {
  }

  lemma ViewAlwaysPrompts(gs: seq<Gallery>, g: Gallery, req: Request, verify: (string, string) -> bool)
    requires Find(gs, g.id) == Some(g) && IsProtected(g) && req.verb != "POST"
    ensures GalleryDetail(gs, g.id, req, verify) == Prompt(g, None)
  {
  }

  /** A gallery is shown exactly when it is public or the request is a POST with its password. */
  lemma ShownIff(gs: seq<Gallery>, galleryId: nat, req: Request, verify: (string, string) -> bool)
    ensures GalleryDetail(gs, galleryId, req, verify).Detail? <==>
              Find(gs, galleryId).Some? &&
              (!IsProtected(Find(gs, galleryId).value) ||
               (req.verb == "POST" && PasswordAccepted(Find(gs, galleryId).value, req, verify)))
  {
  }

  /**
   * The answer is a function of the gallery, whether the request is a POST and,
   * for a POST, the submitted password: nothing else about the request matters.
   */
  lemma DependsOnlyOnMethodAndPassword(gs: seq<Gallery>, galleryId: nat, r1: Request, r2: Request,
                                       verify: (string, string) -> bool)
    requires (r1.verb == "POST") == (r2.verb == "POST")
    requires r1.verb == "POST" ==> SubmittedPassword(r1) == SubmittedPassword(r2)
    ensures GalleryDetail(gs, galleryId, r1, verify) == GalleryDetail(gs, galleryId, r2, verify)
  {
  }
}
