/**
 * The "new sector" dialog: its four state fields and the check it runs
 * before it hands a sector to the page.
 */
module SectorManagement {
  import opened Types
  import opened Text

  const DefaultColor: string := "#3b82f6"
  const NameRequired: string := "Nome do setor é obrigatório"
  const NameTaken: string := "Já existe um setor com este nome"

  /**
   * An existing sector already has this name, ignoring case. Only the new
   * name is trimmed; the stored names are compared as they are.
   */
  predicate NameInUse(sectors: seq<Sector>, name: string) {
    exists s :: s in sectors && Lower(s.name) == Lower(Trim(name))
  }

  /** A name accepted once is refused the next time, in any case and padding. */
  lemma AcceptedNameIsInUse(sectors: seq<Sector>, s: Sector, name: string, again: string)
    requires s.name == Trim(name) && Lower(Trim(again)) == Lower(Trim(name))
    ensures NameInUse(sectors + [s], again)
  {
    var all := sectors + [s];
    assert all[|sectors|] == s;
  }

  /** Surrounding spaces in a stored name hide it from the duplicate check. */
  lemma PaddedStoredNameIsMissed()
    ensures !NameInUse([Sector("hr", " RH", DefaultColor)], "RH")
  {
    var padded := Sector("hr", " RH", DefaultColor);
    assert !IsWhitespace('R') && !IsWhitespace('H');
    assert Trim("RH") == "RH";
    assert |Lower(Trim("RH"))| == 2;
    forall s | s in [padded] ensures Lower(s.name) != Lower(Trim("RH")) {
      assert |Lower(s.name)| == 3;
    }
  }

  /**
   * A stored name that starts or ends with whitespace never equals the
   * lowercased, trimmed new name, whatever is typed.
   */
  lemma PaddedStoredNameNeverMatches(stored: Sector, name: string)
    requires stored.name != []
    requires IsWhitespace(stored.name[0]) || IsWhitespace(stored.name[|stored.name| - 1])
    ensures Lower(stored.name) != Lower(Trim(name))
  {
    var t := Trim(name);
    TrimmedEnds(name);
    if |t| == |stored.name| {
      var last := |t| - 1;
      LowerKeepsWhitespace(stored.name[0]);
      LowerKeepsWhitespace(t[0]);
      LowerKeepsWhitespace(stored.name[last]);
      LowerKeepsWhitespace(t[last]);
      assert Lower(stored.name)[0] != Lower(t)[0] || Lower(stored.name)[last] != Lower(t)[last];
    }
  }

  class SectorDialog {
    var isAddDialogOpen: bool
    var newSectorName: string
    var newSectorColor: string
    var error: string

    constructor ()
      ensures !isAddDialogOpen && newSectorName == "" && newSectorColor == DefaultColor && error == ""
    {
      isAddDialogOpen := false;
      newSectorName := "";
      newSectorColor := DefaultColor;
      error := "";
    }

    /**
     * `handleAddSector`: on success the result is the sector to add (the
     * callback's argument) and the form resets; on a rejection only the
     * error changes and there is no sector to add.
     */
    method HandleAddSector(sectors: seq<Sector>) returns (added: Option<SectorDraft>)
      modifies this
      ensures IsBlank(old(newSectorName)) ==>
                added == None && error == NameRequired
                && newSectorName == old(newSectorName) && newSectorColor == old(newSectorColor)
                && isAddDialogOpen == old(isAddDialogOpen)
      ensures !IsBlank(old(newSectorName)) && NameInUse(sectors, old(newSectorName)) ==>
                added == None && error == NameTaken
                && newSectorName == old(newSectorName) && newSectorColor == old(newSectorColor)
                && isAddDialogOpen == old(isAddDialogOpen)
      ensures !IsBlank(old(newSectorName)) && !NameInUse(sectors, old(newSectorName)) ==>
                added == Some(SectorDraft(Trim(old(newSectorName)), old(newSectorColor)))
                && newSectorName == "" && newSectorColor == DefaultColor && error == ""
                && !isAddDialogOpen
      ensures added.Some? ==> !IsBlank(added.value.name) && Trim(added.value.name) == added.value.name
    {
      var name := newSectorName;
      if Trim(name) == "" {
        assert IsBlank(name);
        error := NameRequired;
        return None;
      }
      assert !IsBlank(name);
      if NameInUse(sectors, name) {
        error := NameTaken;
        return None;
      }
      TrimIdempotent(name);
      assert Trim(Trim(name)) != [];
      added := Some(SectorDraft(Trim(name), newSectorColor));
      newSectorName := "";
      newSectorColor := DefaultColor;
      error := "";
      isAddDialogOpen := false;
    }

    /** Typing in the name field replaces the name and clears any error. */
    method OnNameChange(value: string)
      modifies this
      ensures newSectorName == value && error == ""
      ensures newSectorColor == old(newSectorColor) && isAddDialogOpen == old(isAddDialogOpen)
    {
      newSectorName := value;
      error := "";
    }
  }
}
