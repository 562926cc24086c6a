/** The four colour roles the Button and IconButton colour axes offer, and the
    class names Material Design 3 derives from a role. */
module ColorRoles {
  datatype Color = Primary | Secondary | Tertiary | Error

  function ColorName(c: Color): string
  {
    match c
    case Primary => "primary" case Secondary => "secondary" case Tertiary => "tertiary" case Error => "error"
  }

  /** The colour class names the palette spells out, joined up. */
  lemma Spellings()
    ensures "bg-" + "primary" == "bg-primary" && "text-on-" + "primary" == "text-on-primary"
    ensures "bg-" + "secondary" == "bg-secondary" && "text-on-" + "secondary" == "text-on-secondary"
    ensures "bg-" + "tertiary" == "bg-tertiary" && "text-on-" + "tertiary" == "text-on-tertiary"
    ensures "bg-" + "error" == "bg-error" && "text-on-" + "error" == "text-on-error"
    ensures "text-" + "primary" == "text-primary" && "text-" + "secondary" == "text-secondary"
    ensures "text-" + "tertiary" == "text-tertiary" && "text-" + "error" == "text-error"
  {
  }

  lemma SecondaryContainerSpelling()
    ensures "bg-" + "secondary" + "-container" == "bg-secondary-container"
    ensures "text-on-" + "secondary" + "-container" == "text-on-secondary-container"
  {
  }

  lemma TertiaryContainerSpelling()
    ensures "bg-" + "tertiary" + "-container" == "bg-tertiary-container"
    ensures "text-on-" + "tertiary" + "-container" == "text-on-tertiary-container"
  {
  }

  lemma PrimaryContainerSpelling()
    ensures "bg-" + "primary" + "-container" == "bg-primary-container"
    ensures "text-on-" + "primary" + "-container" == "text-on-primary-container"
  {
  }

  lemma ErrorContainerSpelling()
    ensures "bg-" + "error" + "-container" == "bg-error-container"
    ensures "text-on-" + "error" + "-container" == "text-on-error-container"
  {
  }
}
