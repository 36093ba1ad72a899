/** The tables of app/brand/typosquat.py. */
module TyposquatData {
  import T = Typosquat

  const TLDS: seq<string> := [
    "com", "com.br", "net", "net.br", "org", "app", "online", "site",
    "shop", "store", "info", "xyz", "top", "live", "vip", "digital",
    "com.co", "br.com", "sbs", "icu", "cfd"]

  const LURES: seq<string> := [
    "secure", "support", "service", "acesso", "login", "customer",
    "promocao", "premio", "sorteio", "app", "central", "oficial",
    "br", "online", "account", "cadastro", "verificar", "pagamento",
    "2via", "payment slip", "pix", "ajuda"]

  const HOMOGLYPHS: seq<(string, seq<string>)> := [
    ("o", ["0"]), ("0", ["o"]), ("i", ["1", "l"]), ("l", ["1", "i"]),
    ("e", ["3"]), ("a", ["4", "@"]), ("s", ["5", "$"]), ("b", ["8"]),
    ("g", ["9"]), ("t", ["7"]), ("rn", ["m"]), ("m", ["rn"]), ("cl", ["d"]),
    ("vv", ["w"]), ("w", ["vv"])]

  const QWERTY: map<char, string> := map[
    'q' := "wa", 'w' := "qes", 'e' := "wrd", 'r' := "etf", 't' := "ryg", 'y' := "tuh",
    'u' := "yij", 'i' := "uok", 'o' := "ipl", 'p' := "ol", 'a' := "qsz", 's' := "awdx",
    'd' := "sefc", 'f' := "drgv", 'g' := "fthb", 'h' := "gyjn", 'j' := "hukm",
    'k' := "jil", 'l' := "kop", 'z' := "asx", 'x' := "zsdc", 'c' := "xdfv",
    'v' := "cfgb", 'b' := "vghn", 'n' := "bhjm", 'm' := "njk"]

  const TABLES := T.Tables(HOMOGLYPHS, QWERTY)

  lemma TablesAreShort()
    ensures T.ShortTables(TABLES)
  {
  }

  lemma PriorityTldsAreListed()
    ensures forall t :: t in T.PRIORITY ==> t in TLDS
  {
    assert TLDS[0] == "com" && TLDS[1] == "com.br" && TLDS[5] == "app" && TLDS[6] == "online" && TLDS[8] == "shop";
  }
}
