/** The playlists page (src/pages/Playlists.tsx): the create form and the visibility
    label. */
module Playlists {
  import opened Wrappers
  import opened Text
  import opened Types
  import opened Database

  /** `getVisibilityText`. */
  function VisibilityText(visibility: string): string {
    if visibility == "private" then "Privada"
    else if visibility == "unlisted" then "Não listada"
    else "Pública"
  }

  /** Each stored visibility gets its own label, so the label tells the visibility; any
      other string is labelled public. */
  lemma VisibilityTextMeaning(v: Visibility, w: Visibility, s: string)
    ensures VisibilityText(VisibilityName(Private)) == "Privada"
    ensures VisibilityText(VisibilityName(Unlisted)) == "Não listada"
    ensures VisibilityText(VisibilityName(Public)) == "Pública"
    ensures VisibilityText(VisibilityName(v)) == VisibilityText(VisibilityName(w)) <==> v == w
    ensures s != "private" && s != "unlisted" ==> VisibilityText(s) == "Pública"
  {
  }

  /** What the create form inserts: a title that is neither blank nor padded, and a
      description without padding (it may be empty). */
  lemma InsertedFieldsClean(title: string, description: string)
    requires Trim(title) != ""
    ensures Trim(Trim(title)) == Trim(title) && !AllSpace(Trim(title))
    ensures Trim(Trim(description)) == Trim(description)
  {
    TrimIdempotent(title);
    TrimIdempotent(description);
    TrimEmptyIff(Trim(title));
  }

  const CreateFailed: string := "Erro ao criar playlist"

  class PlaylistsPage {
    var currentUser: Option<UserId>
    var showCreateForm: bool
    var newTitle: string
    var newDescription: string
    var newVisibility: Visibility
    var creating: bool

    constructor(user: Option<UserId>)
      ensures currentUser == user && !showCreateForm && newTitle == "" && newDescription == ""
      ensures newVisibility == Public && !creating
    {
      currentUser := user;
      showCreateForm := false;
      newTitle := "";
      newDescription := "";
      newVisibility := Public;
      creating := false;
    }

    /** The guard of createPlaylist: a user and a title that is not blank after trimming. */
    predicate CanCreate()
      reads this
    {
      currentUser.Some? && Trim(newTitle) != ""
    }

    /** The row createPlaylist inserts for the form's current contents. */
    function NewPlaylist(): PlaylistInsert
      reads this
      requires currentUser.Some?
    {
      PlaylistInsert(Trim(newTitle), Trim(newDescription), currentUser.value, newVisibility)
    }

    /** createPlaylist: does nothing unless CanCreate. Otherwise it inserts the trimmed
        title and description with the chosen visibility; on success the form resets
        (empty fields, public, hidden), on failure it stays and an alert is raised;
        `creating` is false afterwards either way. */
    method CreatePlaylist(db: Store, ok: bool) returns (alert: Option<string>)
      modifies this`showCreateForm, this`newTitle, this`newDescription, this`newVisibility, this`creating,
               db`playlists
      ensures !old(CanCreate()) || !ok ==>
                newTitle == old(newTitle) && newDescription == old(newDescription)
                && newVisibility == old(newVisibility) && showCreateForm == old(showCreateForm)
                && db.playlists == old(db.playlists)
      ensures !old(CanCreate()) ==> alert == None && creating == old(creating)
      ensures old(CanCreate()) ==> !creating
      ensures old(CanCreate()) && ok ==>
                alert == None && db.playlists == old(db.playlists) + [old(NewPlaylist())]
                && newTitle == "" && newDescription == "" && newVisibility == Public && !showCreateForm
      ensures old(CanCreate()) && !ok ==> alert == Some(CreateFailed)
    {
      if !CanCreate() {
        return None;
      }
      creating := true;
      var row := NewPlaylist();
      if ok {
        db.playlists := db.playlists + [row];
        newTitle, newDescription, newVisibility, showCreateForm := "", "", Public, false;
        alert := None;
      } else {
        alert := Some(CreateFailed);
      }
      creating := false;
    }
  }
}
