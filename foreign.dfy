/** The library functions the core calls but does not define.

    They are uninterpreted: the model holds for every choice of them, and no
    property of the core depends on how they behave beyond being functions. */
module Foreign {

  datatype StringOps = StringOps(
    // `slugify.slugify`: the key a location name is stored and looked up under
    slugify: string -> string,
    // `rapidfuzz.fuzz.ratio`: similarity score of two names, 0 to 100
    ratio: (string, string) -> real,
    // `str.lower`
    lower: string -> string,
    // `str.strip`
    strip: string -> string)
}
