/** The record that pairs a parachain token with a native denomination. */
module TokenInfo {

  datatype TokenInfo = TokenInfo(ibcDenom: string, channelID: string, nativeDenom: string, assetId: string)
}
