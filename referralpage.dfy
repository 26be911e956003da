/** The referral page, `src/pages/Referral.tsx`: the referral link it shows and copies, the
    shortened addresses of the referred users, and which view it renders. */
module ReferralPage {
  import opened Js
  import opened Url
  import opened Format
  import opened StakePage

  /** `${origin}/stake?ref=${account}`. */
  function ReferralLink(origin: string, account: string): (link: string)
    ensures |link| == |origin| + 11 + |account|
    ensures link[..|origin|] == origin && link[|origin| + 11..] == account
    ensures link[|origin|..|origin| + 11] == "/stake?ref="
  {
    origin + "/stake?ref=" + account
  }

  /** What `handleCopyLink` does: the text written to the clipboard (a success notification
      follows it). */
  datatype Copied = Copied(clipboard: string)

  /** `handleCopyLink`: nothing without an account (an empty account is falsy), otherwise the
      referral link goes to the clipboard. */
  function HandleCopyLink(account: Option<string>, origin: string): (r: Option<Copied>)
    ensures r.None? <==> account.None? || account.value == ""
    ensures r.Some? ==> r.value.clipboard == ReferralLink(origin, account.value)
  {
    if account.None? || account.value == "" then None
    else Some(Copied(ReferralLink(origin, account.value)))
  }

  /** `shortenAddress`: the first six characters, an ellipsis and the last four. */
  function ShortenAddress(address: string): string {
    Slice(address, 0, 6) + "..." + SliceFrom(address, -4)
  }

  /** `shortenAddress` agrees with `formatAddress` except on the empty string, which it turns
      into a bare ellipsis where `formatAddress` keeps it empty. */
  lemma ShortenMatchesFormat(address: string)
    ensures address != "" ==> ShortenAddress(address) == FormatAddress(address)
    ensures address == "" ==> ShortenAddress(address) == "..." && FormatAddress(address) == ""
  {
  }

  /** The address of a referred user is shown as thirteen characters that keep its first six
      and its last four. */
  lemma ShortenedAddressShape(address: string)
    requires IsHexAddress(address)
    ensures var r := ShortenAddress(address);
      && |r| == 13 && r[..6] == address[..6] && r[6..9] == "..." && r[9..] == address[38..]
  {
    ShortenMatchesFormat(address);
    FormatAddressLong(address);
  }

  /** One referred user, as the page uses it. */
  datatype Referral = Referral(address: string)

  /** What the page renders. */
  datatype View =
    | ConnectCard
    | Spinner
    | ErrorView(message: string)
    | Content(link: string, count: nat, shortAddresses: seq<string>)

  /** The nested conditional of the page: no account, then loading, then an error, then the
      content (an empty account and an empty error message are falsy). */
  function ViewOf(account: Option<string>, loading: bool, error: Option<string>,
                  referrals: seq<Referral>, origin: string): (v: View)
    ensures v == ConnectCard <==> account.None? || account.value == ""
    ensures v == Spinner <==> account.Some? && account.value != "" && loading
    ensures v.ErrorView? <==> account.Some? && account.value != "" && !loading && error.Some? && error.value != ""
    ensures v.ErrorView? ==> v.message == error.value
    ensures v.Content? ==>
      && HandleCopyLink(account, origin) == Some(Copied(v.link))
      && v.count == |referrals|
      && |v.shortAddresses| == |referrals|
      && forall i :: 0 <= i < |referrals| ==> v.shortAddresses[i] == ShortenAddress(referrals[i].address)
  {
    if account.None? || account.value == "" then ConnectCard
    else if loading then Spinner
    else if error.Some? && error.value != "" then ErrorView(error.value)
    else Content(ReferralLink(origin, account.value), |referrals|,
                 seq(|referrals|, i requires 0 <= i < |referrals| => ShortenAddress(referrals[i].address)))
  }

  /** The link round trip: opening the referral link of an account that has the address form
      makes the stake page start with that account as the referrer. */
  lemma ReferralRoundTrip(origin: string, account: string, isAddress: string -> bool)
    requires '?' !in origin && '#' !in origin
    requires IsHexAddress(account) && isAddress(account)
    ensures InitialReferrer(GetParam(SearchOf(ReferralLink(origin, account)), "ref"), isAddress) == account
  {
    var base := origin + "/stake";
    var query := "ref=" + account;
    AddressHasNoDelimiters(account);
    LinkSearch(origin, account);
    assert "?" + query == "?" + "ref" + "=" + account;
    GetSingleParam("ref", account);
  }

  /** An address is made of `0x` and hex digits, so it holds none of the URL's delimiters. */
  lemma AddressHasNoDelimiters(account: string)
    requires IsHexAddress(account)
    ensures '#' !in account && '&' !in account && '+' !in account
  {
    assert forall i :: 0 <= i < |account| ==> account[i] != '#' && account[i] != '&' && account[i] != '+';
  }

  /** The query string of a referral link is `?ref=` followed by the account. */
  lemma LinkSearch(origin: string, account: string)
    requires '?' !in origin && '#' !in origin && '#' !in account
    ensures SearchOf(ReferralLink(origin, account)) == "?" + ("ref=" + account)
  {
    var base := origin + "/stake";
    var query := "ref=" + account;
    assert '#' !in query by {
      assert query == "ref=" + account;
      assert forall i :: 0 <= i < |query| ==> query[i] != '#' by {
        assert forall i :: 4 <= i < |query| ==> query[i] == account[i - 4];
      }
    }
    assert '?' !in base && '#' !in base by {
      assert forall i :: 0 <= i < |base| ==> base[i] != '?' && base[i] != '#' by {
        assert forall i :: |origin| <= i < |base| ==> base[i] == "/stake"[i - |origin|];
      }
    }
    assert ReferralLink(origin, account) == base + "?" + query;
    SearchOfQuery(base, query);
  }
}
