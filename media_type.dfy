/** The media types the client names (`MediaType` constants). */
module MediaType {
  const APPLICATION_JSON := "application/json"
  const APPLICATION_X_WWW_FORM_URLENCODED := "application/x-www-form-urlencoded"
  const TEXT_PLAIN := "text/plain"
  const TEXT_XML := "text/xml"
}
