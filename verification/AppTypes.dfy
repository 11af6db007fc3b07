/** Application types, in declaration order, and their names. */
module AppTypes {
  datatype AppType =
    | Unknown | Http | Https | Dns | Tls | Quic | Google | Facebook | YouTube | Twitter | Instagram | Netflix
    | Amazon | Microsoft | Apple | WhatsApp | Telegram | TikTok | Spotify | Zoom | Discord | GitHub | Cloudflare

  /** Every value below APP_COUNT, in order. */
  const All: seq<AppType> := [
    Unknown, Http, Https, Dns, Tls, Quic, Google, Facebook, YouTube, Twitter, Instagram, Netflix,
    Amazon, Microsoft, Apple, WhatsApp, Telegram, TikTok, Spotify, Zoom, Discord, GitHub, Cloudflare]

  /** appTypeToString */
  function Name(a: AppType): string {
    match a
    case Unknown => "Unknown"
    case Http => "HTTP"
    case Https => "HTTPS"
    case Dns => "DNS"
    case Tls => "TLS"
    case Quic => "QUIC"
    case Google => "Google"
    case Facebook => "Facebook"
    case YouTube => "YouTube"
    case Twitter => "Twitter/X"
    case Instagram => "Instagram"
    case Netflix => "Netflix"
    case Amazon => "Amazon"
    case Microsoft => "Microsoft"
    case Apple => "Apple"
    case WhatsApp => "WhatsApp"
    case Telegram => "Telegram"
    case TikTok => "TikTok"
    case Spotify => "Spotify"
    case Zoom => "Zoom"
    case Discord => "Discord"
    case GitHub => "GitHub"
    case Cloudflare => "Cloudflare"
  }
}
