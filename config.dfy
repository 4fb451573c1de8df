/** The parts of the site configuration the preprocess helpers read. */
module Config {
  import opened Items

  /** One entry of `webmaster_tools`: a hash with optional `identifier` and `content` keys. */
  type Descriptor = Attributes

  /**
   * The `robots` hash. `default` is any value (tested for truthiness);
   * `disallow`, `allow` and `sitemap` are None when absent or nil.
   */
  datatype Robots = Robots(
    default: Value,
    disallow: Option<seq<string>>,
    allow: Option<seq<string>>,
    sitemap: Option<string>)

  /** The exceptions the helpers raise on a configuration of the wrong shape. */
  datatype Error =
    | NilWebmasterTools  // `nil.each`: the `webmaster_tools` key is missing
    | NilDisallow        // `nil.map`: custom robots mode without a `disallow` list

  /** A value, or the exception raised instead; a helper that only changes the site returns `Result<()>`. */
  datatype Result<T> = Ok(value: T) | Err(error: Error)
}
