/** The Redis keys of the provider buckets and of the credential buckets. */
module RateLimitKeys {
  datatype ChannelType = Email | MAX | WhatsApp | Telegram

  datatype AdapterType = GreenAPI | TelegramAPI | SMTP | DashaMailApi

  function NormalizeChannel(c: ChannelType): string {
    match c
    case Email => "email"
    case MAX => "max"
    case WhatsApp => "whatsapp"
    case Telegram => "telegram"
  }

  function NormalizeAdapter(a: AdapterType): string {
    match a
    case GreenAPI => "greenapi"
    case TelegramAPI => "telegramapi"
    case SMTP => "smtp"
    case DashaMailApi => "dashamailapi"
  }

  function ProviderKey(c: ChannelType, a: AdapterType): string {
    "rate_limit:" + (NormalizeChannel(c) + (":" + NormalizeAdapter(a)))
  }

  /** `credential` is the trimmed, lower-cased credential key. */
  function CredentialKey(c: ChannelType, a: AdapterType, credential: string): string {
    "rate_limit:" + ("credential" + (":" + (NormalizeChannel(c) + (":" + (NormalizeAdapter(a) + (":" + credential))))))
  }

  /** The names that keys are made of. */
  lemma NamesAre()
    ensures NormalizeChannel(Email) == "email" && NormalizeChannel(MAX) == "max"
    ensures NormalizeChannel(WhatsApp) == "whatsapp" && NormalizeChannel(Telegram) == "telegram"
    ensures NormalizeAdapter(GreenAPI) == "greenapi" && NormalizeAdapter(TelegramAPI) == "telegramapi"
    ensures NormalizeAdapter(SMTP) == "smtp" && NormalizeAdapter(DashaMailApi) == "dashamailapi"
  {
  }

  lemma ConcatAssociates(x: string, y: string, z: string)
    ensures x + (y + z) == x + y + z
  {
  }

  lemma KeysAre(c: ChannelType, a: AdapterType, credential: string)
    ensures ProviderKey(c, a) == "rate_limit:" + NormalizeChannel(c) + ":" + NormalizeAdapter(a)
    ensures CredentialKey(c, a, credential)
         == "rate_limit:credential:" + NormalizeChannel(c) + ":" + NormalizeAdapter(a) + ":" + credential
  {
    hide NormalizeChannel, NormalizeAdapter;
    var x, y, prefix := NormalizeChannel(c), NormalizeAdapter(a), "rate_limit:";
    ConcatAssociates(prefix, x, ":" + y);
    ConcatAssociates(prefix + x, ":", y);
    var tail := x + (":" + (y + (":" + credential)));
    ConcatAssociates(prefix, "credential", ":" + tail);
    ConcatAssociates(prefix + "credential", ":", tail);
    var start := prefix + "credential" + ":";
    assert start == "rate_limit:credential:";
    ConcatAssociates(start, x, ":" + (y + (":" + credential)));
    ConcatAssociates(start + x, ":", y + (":" + credential));
    ConcatAssociates(start + x + ":", y, ":" + credential);
    ConcatAssociates(start + x + ":" + y, ":", credential);
  }

  /** Texts without a colon in front of the first colon can be read back. */
  lemma SplitAtColon(x: string, y: string, xs: string, ys: string)
    requires ':' !in x && ':' !in y
    requires x + (":" + xs) == y + (":" + ys)
    ensures x == y && xs == ys
  {
    var s, t := x + (":" + xs), y + (":" + ys);
    assert s[|x|] == ':' && t[|y|] == ':';
    assert s[..|x|] == x && t[..|y|] == y;
    assert s[|x| + 1..] == xs && t[|y| + 1..] == ys;
  }

  lemma SamePrefix(p: string, x: string, y: string)
    requires p + x == p + y
    ensures x == y
  {
    assert (p + x)[|p|..] == x && (p + y)[|p|..] == y;
  }

  lemma NormalizeChannelInjective(c: ChannelType, d: ChannelType)
    requires NormalizeChannel(c) == NormalizeChannel(d)
    ensures c == d
  {
    var s, t := NormalizeChannel(c), NormalizeChannel(d);
    assert s[0] == t[0];
  }

  lemma NormalizeAdapterInjective(a: AdapterType, b: AdapterType)
    requires NormalizeAdapter(a) == NormalizeAdapter(b)
    ensures a == b
  {
    var s, t := NormalizeAdapter(a), NormalizeAdapter(b);
    assert s[0] == t[0];
  }

  lemma ProviderKeysDistinct(c: ChannelType, a: AdapterType, d: ChannelType, b: AdapterType)
    ensures ProviderKey(c, a) == ProviderKey(d, b) <==> c == d && a == b
  {
    if ProviderKey(c, a) == ProviderKey(d, b) {
      SamePrefix("rate_limit:", NormalizeChannel(c) + (":" + NormalizeAdapter(a)),
                 NormalizeChannel(d) + (":" + NormalizeAdapter(b)));
      SplitAtColon(NormalizeChannel(c), NormalizeChannel(d), NormalizeAdapter(a), NormalizeAdapter(b));
      NormalizeChannelInjective(c, d);
      NormalizeAdapterInjective(a, b);
    }
  }

  lemma CredentialKeysDistinct(c: ChannelType, a: AdapterType, x: string, d: ChannelType, b: AdapterType, y: string)
    ensures CredentialKey(c, a, x) == CredentialKey(d, b, y) <==> c == d && a == b && x == y
  {
    if CredentialKey(c, a, x) == CredentialKey(d, b, y) {
      var tailX, tailY := NormalizeAdapter(a) + (":" + x), NormalizeAdapter(b) + (":" + y);
      var cx, dy := NormalizeChannel(c) + (":" + tailX), NormalizeChannel(d) + (":" + tailY);
      SamePrefix("rate_limit:", "credential" + (":" + cx), "credential" + (":" + dy));
      SplitAtColon("credential", "credential", cx, dy);
      SplitAtColon(NormalizeChannel(c), NormalizeChannel(d), tailX, tailY);
      SplitAtColon(NormalizeAdapter(a), NormalizeAdapter(b), x, y);
      NormalizeChannelInjective(c, d);
      NormalizeAdapterInjective(a, b);
    }
  }

  /** No channel is called "credential", so the two families of keys never meet. */
  lemma ProviderIsNeverCredential(c: ChannelType, a: AdapterType, d: ChannelType, b: AdapterType, y: string)
    ensures ProviderKey(c, a) != CredentialKey(d, b, y)
  {
    if ProviderKey(c, a) == CredentialKey(d, b, y) {
      var dy := NormalizeChannel(d) + (":" + (NormalizeAdapter(b) + (":" + y)));
      SamePrefix("rate_limit:", NormalizeChannel(c) + (":" + NormalizeAdapter(a)), "credential" + (":" + dy));
      SplitAtColon(NormalizeChannel(c), "credential", NormalizeAdapter(a), dy);
    }
  }
}
