/** Template ids: one number for a template's content hash. */
module Identifiers {
  type TemplateId = nat
}
