/** The editor for one home-page section: a plain text box for a few fixed keys,
    the rich-text editor for the rest. */
module SectionEditor {
  import opened Wrappers

  datatype SectionData = SectionData(key: string, title: Option<string>, content: Option<string>)

  datatype EditorKind = PlainText | RichText

  datatype EditorState = EditorState(title: string, content: string)

  /** The `home_sections` row update "Save" sends. */
  datatype SectionUpdate = SectionUpdate(key: string, title: string, content: string)

  /** `isPlainTextSection`. */
  predicate IsPlainTextSection(key: string) {
    key == "contact_cta" || key == "hero" || key == "about_preview"
  }

  function EditorFor(section: SectionData): (k: EditorKind)
    ensures k == PlainText <==> section.key in {"hero", "contact_cta", "about_preview"}
    ensures k == RichText <==> section.key !in {"hero", "contact_cta", "about_preview"}
  {
    if IsPlainTextSection(section.key) then PlainText else RichText
  }

  /** `section.title || ""` and `section.content || ""`. */
  function Initial(section: SectionData): (st: EditorState)
    ensures section.title.Some? ==> st.title == section.title.value
    ensures section.title.None? ==> st.title == ""
    ensures section.content.Some? ==> st.content == section.content.value
    ensures section.content.None? ==> st.content == ""
  {
    EditorState(section.title.GetOr(""), section.content.GetOr(""))
  }

  /** Save writes the two edited fields to the row with this section's key. */
  function SaveRequest(section: SectionData, st: EditorState): (u: SectionUpdate)
    ensures u.key == section.key && u.title == st.title && u.content == st.content
  {
    SectionUpdate(section.key, st.title, st.content)
  }

  /** Opening an editor and saving without edits writes back what was there. */
  lemma SaveUnedited(section: SectionData)
    requires section.title.Some? && section.content.Some?
    ensures SaveRequest(section, Initial(section)) ==
      SectionUpdate(section.key, section.title.value, section.content.value)
  {
  }
}
