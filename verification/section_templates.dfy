/** The section template registry the site editor adds sections from: each
    template id names a display name and the default content a new section
    of that kind starts with. The registry has no default styles. */
module SectionTemplates {
  import opened Json

  datatype Template = Template(name: string, defaultContent: Record)

  function Item3(k1: string, v1: string, k2: string, v2: string, k3: string, v3: string): Value {
    Obj(map[k1 := Str(v1), k2 := Str(v2), k3 := Str(v3)])
  }

  const HeroContent: Record := map[
    "title" := Str("Titre principal"),
    "subtitle" := Str("Sous-titre accrocheur"),
    "cta" := Str("En savoir plus"),
    "backgroundImage" := Str("")
  ]

  const FeaturesContent: Record := map[
    "title" := Str("Nos fonctionnalités"),
    "features" := Arr([
      Item3("title", "Fonctionnalité 1", "description", "Description de la fonctionnalité 1", "icon", "LightBulbIcon"),
      Item3("title", "Fonctionnalité 2", "description", "Description de la fonctionnalité 2", "icon", "ShieldCheckIcon"),
      Item3("title", "Fonctionnalité 3", "description", "Description de la fonctionnalité 3", "icon", "ChartBarIcon")
    ])
  ]

  function Testimonial(quote: string, author: string, role: string): Value {
    Obj(map["quote" := Str(quote), "author" := Str(author), "role" := Str(role), "avatar" := Str("")])
  }

  const TestimonialsContent: Record := map[
    "title" := Str("Ce que disent nos clients"),
    "testimonials" := Arr([
      Testimonial("Un excellent service !", "Jean Dupont", "CEO, Entreprise"),
      Testimonial("Exactement ce dont nous avions besoin.", "Marie Martin", "Designer, Studio")
    ])
  ]

  function Plan(name: string, price: string, features: seq<string>): Value {
    Obj(map[
      "name" := Str(name),
      "price" := Str(price),
      "currency" := Str("€"),
      "period" := Str("mois"),
      "features" := Arr(seq(|features|, i requires 0 <= i < |features| => Str(features[i])))
    ])
  }

  const PricingContent: Record := map[
    "title" := Str("Nos tarifs"),
    "description" := Str("Choisissez le plan qui vous convient"),
    "plans" := Arr([
      Plan("Basic", "9.99", ["Fonctionnalité 1", "Fonctionnalité 2", "Fonctionnalité 3"]),
      Plan("Pro", "29.99", ["Tout du plan Basic", "Fonctionnalité 4", "Fonctionnalité 5"])
    ])
  ]

  const ContactContent: Record := map[
    "title" := Str("Contactez-nous"),
    "description" := Str("Nous sommes là pour vous aider"),
    "email" := Str("contact@example.com"),
    "phone" := Str("+33 1 23 45 67 89"),
    "address" := Str("123 rue Example, 75000 Paris")
  ]

  /** The registry, keyed by template id. */
  const Registry: map<string, Template> := map[
    "hero" := Template("Section Héro", HeroContent),
    "features" := Template("Fonctionnalités", FeaturesContent),
    "testimonials" := Template("Témoignages", TestimonialsContent),
    "pricing" := Template("Tarifs", PricingContent),
    "contact" := Template("Contact", ContactContent)
  ]

  /** Exactly five kinds of section can be added. */
  lemma RegistryKeys()
    ensures Registry.Keys == {"hero", "features", "testimonials", "pricing", "contact"}
  {
  }

  /** The property names an object literal inherits from `Object.prototype`
      (section 20.1.3 of ECMA-262 and its Annex B). Indexing the registry
      with one of them finds the inherited value, which has no
      `defaultContent`. */
  const InheritedNames: set<string> := {
    "constructor", "hasOwnProperty", "isPrototypeOf", "propertyIsEnumerable",
    "toLocaleString", "toString", "valueOf", "__proto__",
    "__defineGetter__", "__defineSetter__", "__lookupGetter__", "__lookupSetter__"
  }

  /** `sectionTemplates[id]` is not `undefined`. */
  predicate Found(id: string) {
    id in Registry || id in InheritedNames
  }

  /** `{ ...sectionTemplates[id].defaultContent }`: the template's default
      content, or no key at all when the name is an inherited one. */
  function DefaultContent(id: string): Record
    requires Found(id)
  {
    if id in Registry then Registry[id].defaultContent else map[]
  }
}
