/** The service's fixed names and messages. */
module Settings {

  /** Directory the downloader writes into and the static handler serves from. */
  const BaseDir := "/tmp/ytdl/"

  /** The external downloader, invoked through `sh -c`. */
  const CommandName := "youtube-dl"

  /** Suffix of the metadata side-car the downloader writes next to each audio file. */
  const InfoSuffix := ".info.json"

  const ParameterVInvalidMessage :=
    "Parameter 'v' is invalid. Must be an url like 'https://youtu.be/b8g1o8Ph7LQ' or 'https://www.youtube.com/watch?v=b8g1o8Ph7LQ' or just 'b8g1o8Ph7LQ'."

  /** Reply to the bot's /start and /info commands. */
  const Info := @"Use this bot to get an audio from youtube videos.
Examples:
- /listen https://youtu.be/b8g1o8Ph7LQ
- /listen b8g1o8Ph7LQ
- /listen b8g1o8Ph7LQ mp3
- https://youtu.be/b8g1o8Ph7LQ
- https://www.youtube.com/watch?v=b8g1o8Ph7LQ
etc...
"
}
