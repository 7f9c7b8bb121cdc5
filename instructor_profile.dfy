/** The teaching-language list of the instructor profile form
    (`InstructorProfileForm.jsx`): a text input whose trimmed value is
    appended when it is new, and a remove button on each entry. */
module InstructorProfile {
  import opened Wrappers
  import opened Text
  import opened Seqs

  class InstructorForm {
    /** `instructorData.teaching_languages`; None while the field is missing. */
    var languages: Option<seq<string>>
    /** The text of the language input. */
    var languageInput: string

    constructor (languages: Option<seq<string>>)
      ensures this.languages == languages && languageInput == ""
    {
      this.languages := languages;
      languageInput := "";
    }

    /** The list the handlers work on: a missing list counts as empty. */
    function Current(): seq<string>
      reads this
    {
      languages.GetOr([])
    }

    method TypeLanguage(text: string)
      modifies this
      ensures languageInput == text && languages == old(languages)
    {
      languageInput := text;
    }

    /** `addLanguage`: the trimmed input is appended at the end and the input
        cleared, but only when it is non-empty and not in the list yet; a
        refused add changes nothing. */
    method AddLanguage() returns (added: bool)
      modifies this
      ensures added <==> Trim(old(languageInput)) != "" && Trim(old(languageInput)) !in old(Current())
      ensures added ==> languages == Some(old(Current()) + [Trim(old(languageInput))]) && languageInput == ""
      ensures !added ==> languages == old(languages) && languageInput == old(languageInput)
      ensures NoDuplicates(old(Current())) ==> NoDuplicates(Current())
    {
      var value := Trim(languageInput);
      var current := Current();
      if value != "" && value !in current {
        if NoDuplicates(current) {
          AppendFreshNoDuplicates(current, value);
        }
        languages := Some(current + [value]);
        languageInput := "";
        added := true;
      } else {
        added := false;
      }
    }

    /** `removeLanguage`: every occurrence of the value goes, the other
        entries keep their order. */
    method RemoveLanguage(language: string)
      modifies this
      ensures languages == Some(Without(old(Current()), language))
      ensures language !in Current()
      ensures forall other :: other != language ==> (other in Current() <==> other in old(Current()))
      ensures Subsequence(Current(), old(Current()))
      ensures NoDuplicates(old(Current())) ==> NoDuplicates(Current())
      ensures languageInput == old(languageInput)
    {
      var current := Current();
      WithoutKeepsOrder(current, language);
      if NoDuplicates(current) {
        WithoutNoDuplicates(current, language);
      }
      languages := Some(Without(current, language));
    }
  }

  /** Adding a fresh language and removing it again restores the list (a
      missing list comes back as an empty one). */
  method AddThenRemove(form: InstructorForm)
    requires Trim(form.languageInput) != "" && Trim(form.languageInput) !in form.Current()
    modifies form
    ensures form.languages == Some(old(form.Current()))
  {
    var value := Trim(form.languageInput);
    var before := form.Current();
    var added := form.AddLanguage();
    form.RemoveLanguage(value);
    WithoutAppendFresh(before, value);
  }
}
