/** The JSON records the renderers of js/app.js read. Every field may be
    missing. Where the page treats a missing key and `null` alike (truth
    tests, `||`, `escapeHTML`, `Array.isArray`), both are `None`; where it
    converts the value to a string, the field is a `Field`.
    A list field is `Some` exactly when it holds an array (what
    `Array.isArray` checks, and what `.map` needs). */
module Content {
  import opened Wrappers
  import opened JsText
  import Email

  /** intro.json: the hero section. */
  datatype Intro = Intro(
    headline: Option<string>,
    subtitle: Option<string>,
    summary: Option<string>,
    cvPath: Option<string>,
    chips: Option<seq<string>>)

  /** One entry of experience.json. Dates are `"YYYY-MM"` tokens. */
  datatype Job = Job(
    role: Option<string>,
    company: Option<string>,
    start: Option<string>,
    end: Option<string>,
    location: Option<string>,
    summary: Option<string>,
    highlights: Option<seq<string>>,
    tags: Option<seq<string>>)

  /** One entry of projects.json. */
  datatype Project = Project(
    name: Option<string>,
    blurb: Option<string>,
    tags: Option<seq<string>>)

  /** One key of skills.json with its list of skills, in key order. */
  datatype SkillGroup = SkillGroup(name: string, skills: Option<seq<string>>)

  /** One entry of certifications.json; `caption` is its `label` field
      (`label` is a keyword of Dafny). */
  datatype Cert = Cert(
    caption: Option<string>,
    date: Option<string>,
    url: Option<string>)

  /** One entry of `primary_buttons` in contact.json. `kind` is the
      `type` field, `caption` the `label` field; `hrefKey` names an entry
      of `links`, and as a property key `null` and a missing key are the
      texts "null" and "undefined". */
  datatype Button = Button(
    kind: Option<string>,
    icon: Option<string>,
    caption: Option<string>,
    hrefKey: Field)

  /** contact.json. */
  datatype Contact = Contact(
    email: Option<Email.EmailHalves>,
    links: Option<map<string, string>>,
    primaryButtons: Option<seq<Button>>)
}
