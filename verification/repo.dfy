/** The repository record the presentation layer lists (`Repo`). */
module Repos {

  /** Rust's `u32`. */
  newtype U32 = x: int | 0 <= x < 0x1_0000_0000

  /** A listed repository: its folder name, its path, and the dominant
      language with its line count as supplied by the language analyser. */
  datatype Repo = Repo(name: string, path: string, language: string, count: U32)
}
