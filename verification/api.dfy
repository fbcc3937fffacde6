/**
 The decoded game-packages API response: the records the JSON body is
 deserialised into. Fields the formatter never reads (the game id and biz
 tag, the version label, the md5 checksums) are kept so the records match
 the schema.
 */
module Api {

  datatype Option<T> = None | Some(value: T)

  /** The outcome of building the report: the report text or an error message. */
  datatype Result<T> = Ok(value: T) | Err(error: string)

  /** The response's status code is a 32-bit signed integer. */
  newtype Int32 = x: int | -0x8000_0000 <= x < 0x8000_0000

  /** One downloadable game archive; sizes are byte counts written as decimal strings. */
  datatype Package = Package(url: string, md5: string, size: string, decompressedSize: string)

  /** One downloadable voice-over archive, tagged with a language code such as "en-us". */
  datatype AudioPackage = AudioPackage(
    language: string, url: string, md5: string, size: string, decompressedSize: string)

  /** The current release: its game archives (in part order) and audio archives. */
  datatype Major = Major(version: string, gamePkgs: seq<Package>, audioPkgs: seq<AudioPackage>)

  /** The `main` release section; `major` may be absent. */
  datatype Main = Main(major: Option<Major>)

  datatype Game = Game(id: string, biz: string)

  /** One game variant listed by the API. */
  datatype GamePackage = GamePackage(game: Game, main: Main)

  datatype Data = Data(gamePackages: seq<GamePackage>)

  /** The whole response; a non-zero `retcode` signals an API-level error described by `message`. */
  datatype ApiResponse = ApiResponse(retcode: Int32, message: string, data: Data)
}
