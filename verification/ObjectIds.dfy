/** Object ids as the library sees them. */
module ObjectIds {
  import opened Bytes

  type ObjectId = u32

  /** A default-constructed id stands for no object. */
  const NO_OBJECT: ObjectId := 0xaaaa_aaaa
}
