/**
 * The `/embed` command: five optional free-text fields become one embed.
 * Each field is read with JavaScript's `||`, so an empty string counts as
 * absent: an absent or empty color falls back to pink, every other absent
 * or empty field is left off the embed.
 */
module Embed {
  import opened Wrappers
  import opened Commands

  const DefaultColor: string := "#FFC0CB"

  /** The embed as built; the color string is passed on uninterpreted. */
  datatype EmbedPayload = EmbedPayload(
    title: Option<string>,
    description: Option<string>,
    color: string,
    image: Option<string>,
    footer: Option<string>)

  /** A JavaScript value that is a string or null is truthy exactly when it is a non-empty string. */
  predicate Truthy(v: Option<string>) {
    v.Some? && v.value != ""
  }

  /** `v || null`: the value when it is a non-empty string, else nothing. */
  function OrNull(v: Option<string>): Option<string> {
    if Truthy(v) then v else None
  }

  /** `v || d`. */
  function OrDefault(v: Option<string>, d: string): string {
    if Truthy(v) then v.value else d
  }

  /** True when `field` of the embed is exactly the non-empty value of the option `name`, and absent otherwise. */
  predicate CarriesOption(o: CommandOptions, name: string, field: Option<string>) {
    (field.Some? <==> (name in o.strings && o.strings[name] != "")) &&
    (field.Some? ==> field.value == o.strings[name])
  }

  /** The embed the command replies with. */
  function Compose(o: CommandOptions): (p: EmbedPayload)
    ensures CarriesOption(o, "title", p.title)
    ensures CarriesOption(o, "description", p.description)
    ensures CarriesOption(o, "image", p.image)
    ensures CarriesOption(o, "footer", p.footer)
    ensures "color" in o.strings && o.strings["color"] != "" ==> p.color == o.strings["color"]
    ensures !("color" in o.strings && o.strings["color"] != "") ==> p.color == DefaultColor
  {
    var title := OrNull(GetString(o, "title"));
    var description := OrNull(GetString(o, "description"));
    var color := OrDefault(GetString(o, "color"), DefaultColor);
    var image := OrNull(GetString(o, "image"));
    var footer := OrNull(GetString(o, "footer"));
    // the image and footer are set only when truthy, which OrNull has already decided
    EmbedPayload(title, description, color, image, footer)
  }

  /** No field of a composed embed is an empty string, and the color is never missing. */
  predicate NoEmptyField(p: EmbedPayload) {
    p.color != "" &&
    (p.title.Some? ==> p.title.value != "") &&
    (p.description.Some? ==> p.description.value != "") &&
    (p.image.Some? ==> p.image.value != "") &&
    (p.footer.Some? ==> p.footer.value != "")
  }

  lemma ComposeHasNoEmptyField(o: CommandOptions)
    ensures NoEmptyField(Compose(o))
  {
  }

  /** With no option given, the embed is pink and shows nothing else. */
  lemma ComposeAllAbsent()
    ensures Compose(CommandOptions(map[], map[])) == EmbedPayload(None, None, "#FFC0CB", None, None)
  {
  }

  /** Empty strings are the same as leaving the option out. */
  lemma ComposeIgnoresEmpty(o: CommandOptions, name: string)
    requires name in o.strings && o.strings[name] == ""
    ensures Compose(o) == Compose(CommandOptions(o.strings - {name}, o.roles))
  {
  }
}
