/**
 * The concrete addresses and messages the examples talk about, each written
 * as the concatenation of its parts. Kept apart from the address patterns so that
 * the verifier compares the characters without the patterns' definitions in
 * view; long addresses are split in two halves first.
 */
module AddressTexts {
  lemma LoopbackV4Fields()
    ensures "127.0.0.1" == "127" + ['.'] + "0" + ['.'] + "0" + ['.'] + "1"
  {
  }

  lemma OctetRangeFields()
    ensures "256.0.0.1" == "256" + ['.'] + "0" + ['.'] + "0" + ['.'] + "1"
    ensures "099.0.0.1" == "099" + ['.'] + "0" + ['.'] + "0" + ['.'] + "1"
  {
  }

  lemma DocumentationAddressHalves()
    ensures "2001:0db8:85a3:0000:0000:8a2e:0370:7334" == "2001:0db8:85a3:0000" + [':'] + "0000:8a2e:0370:7334"
  {
  }

  lemma DocumentationAddressFields()
    ensures "2001:0db8:85a3:0000" == "2001" + [':'] + "0db8" + [':'] + "85a3" + [':'] + "0000"
    ensures "0000:8a2e:0370:7334" == "0000" + [':'] + "8a2e" + [':'] + "0370" + [':'] + "7334"
  {
  }

  lemma LongLoopbackFields()
    ensures "0:0:0:0:0:0:0:1" == "0:0:0:0" + [':'] + "0:0:0:1"
    ensures "0:0:0:0" == "0" + [':'] + "0" + [':'] + "0" + [':'] + "0"
    ensures "0:0:0:1" == "0" + [':'] + "0" + [':'] + "0" + [':'] + "1"
  {
  }

  lemma ShortLoopbackFields()
    ensures "::1" == "" + [':'] + "" + [':'] + "1"
  {
  }

  lemma SixThenOneFields()
    ensures "1:2:3:4:5:6::7" == "1:2:3:4" + [':'] + "5:6::7"
    ensures "1:2:3:4" == "1" + [':'] + "2" + [':'] + "3" + [':'] + "4"
    ensures "5:6::7" == "5" + [':'] + "6" + [':'] + "" + [':'] + "7"
  {
  }

  lemma ZoneFields()
    ensures "fe80::1%eth0" == ("fe80" + [':'] + "" + [':'] + "1") + ['%'] + "eth0"
    ensures "FE80::1%eth0" == ("FE80" + [':'] + "" + [':'] + "1") + ['%'] + "eth0"
  {
  }

  lemma UnspecifiedFields()
    ensures "::" == "" + [':'] + "" + [':'] + ""
  {
  }

  lemma ValidIpTestFields()
    ensures "68.49.0.196" == "68" + ['.'] + "49" + ['.'] + "0" + ['.'] + "196"
    ensures "68.49.0.196" != "127.0.0.1" && "68.49.0.196" != "0:0:0:0:0:0:0:1"
  {
  }

  lemma CachedDataTestFields()
    ensures "192.168.1.1" == "192" + ['.'] + "168" + ['.'] + "1" + ['.'] + "1"
    ensures "192.168.1.1" != "127.0.0.1" && "192.168.1.1" != "0:0:0:0:0:0:0:1"
  {
  }

  lemma InvalidIpText()
    ensures "Invalid IP address provided in the request: " + "invalid_ip"
            == "Invalid IP address provided in the request: invalid_ip"
  {
  }

  lemma NullCacheKeyText()
    ensures "weather:" + "null" == "weather:null"
  {
  }
}
