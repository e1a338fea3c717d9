/** The side a piece of mod code runs on, as the wizard stores it for the
    generated project's environment setting. */
module SideOnly {

  datatype Side = CLIENT | SERVER | NONE | INVALID
}
