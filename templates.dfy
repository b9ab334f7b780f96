/** The template selector: the body of a newly created contact note. */
module Templates {

  /** The template kinds the settings offer. The custom body itself comes from the settings. */
  datatype TemplateType = Custom | Frontmatter | Default

  /** The marker line that opens and closes the default contact table. */
  const ContactMarker: string := "/---contact---/"

  /** The rows of the default contact table. */
  const ContactTable: string := @"| key       | value |
| --------- | ----- |
| Name      |       |
| Last Name |       |
| Phone     |       |
| Telegram  |       |
| Linkedin  |       |
| Birthday  |       |
| Last chat |       |
| Friends   |       |"

  /** The default body: the `key | value` table between two marker lines. */
  const CustomFormat: string := ContactMarker + "\n" + ContactTable + "\n" + ContactMarker

  /** The line that opens and closes a frontmatter block. */
  const FrontmatterFence: string := "---"

  /** The keys of the frontmatter block. */
  const FrontmatterFields: string := @"name:
  first:
  last:
phone:
telegram:
linkedin:
birthday:
last_chat:
friends:
type: contact"

  /** The frontmatter body: the metadata keys between two `---` lines. */
  const FrontmatterFormat: string := FrontmatterFence + "\n" + FrontmatterFields + "\n" + FrontmatterFence

  predicate IsPrefix(p: string, s: string)
  {
    |p| <= |s| && s[..|p|] == p
  }

  predicate IsSuffix(p: string, s: string)
  {
    |p| <= |s| && s[|s| - |p|..] == p
  }

  /** `getNewFileContent`: the custom kind yields the settings' template verbatim, the
      frontmatter kind the frontmatter block, and every other kind the marked contact table. */
  function GetNewFileContent(settingsTemplate: string, template: TemplateType): (body: string)
    ensures template == Custom ==> body == settingsTemplate
    ensures template == Frontmatter ==> body == FrontmatterFormat
    ensures template != Custom && template != Frontmatter ==> body == CustomFormat
  {
    match template
    case Custom => settingsTemplate
    case Frontmatter => FrontmatterFormat
    case _ => CustomFormat
  }

  /** The fixed bodies are what their names say: the contact table opens and closes with its
      marker line, the frontmatter block opens and closes with `---`, and the two differ. */
  lemma FixedTemplatesDelimited()
    ensures IsPrefix(ContactMarker + "\n", CustomFormat) && IsSuffix("\n" + ContactMarker, CustomFormat)
    ensures IsPrefix(FrontmatterFence + "\n", FrontmatterFormat) && IsSuffix("\n" + FrontmatterFence, FrontmatterFormat)
    ensures CustomFormat != FrontmatterFormat
  {
    DelimitedBy(ContactMarker, ContactTable);
    DelimitedBy(FrontmatterFence, FrontmatterFields);
    assert CustomFormat[0] == ContactMarker[0] == '/';
    assert FrontmatterFormat[0] == FrontmatterFence[0] == '-';
  }

  lemma DelimitedBy(fence: string, body: string)
    ensures IsPrefix(fence + "\n", fence + "\n" + body + "\n" + fence)
    ensures IsSuffix("\n" + fence, fence + "\n" + body + "\n" + fence)
  {
    var s := fence + "\n" + body + "\n" + fence;
    assert s == (fence + "\n") + (body + "\n" + fence);
    assert s == (fence + "\n" + body) + ("\n" + fence);
  }
}
