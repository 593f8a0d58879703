/** The immutable transport settings a client is created with. */
module Config {
  import opened Base

  /** A java.time.Duration as a whole number of milliseconds; None stands for null. */
  type Millis = nat

  datatype ClientConfig = ClientConfig(
    followRedirects: bool,
    followSslRedirects: bool,
    readTimeout: Option<Millis>,
    writeTimeout: Option<Millis>,
    retryOnConnectionFailure: bool,
    connectTimeout: Option<Millis>)

  /** ClientConfig.defaultConfig: the field initialisers of the no-argument constructor. */
  function DefaultConfig(): (c: ClientConfig)
    ensures c.followRedirects && c.followSslRedirects && c.retryOnConnectionFailure
    ensures c.readTimeout == Some(0)
    ensures c.writeTimeout.None? && c.connectTimeout.None?
  {
    ClientConfig(true, true, Some(0), None, true, None)
  }

  /** ClientConfig.createClientConfig: the six arguments, stored as given. */
  function CreateClientConfig(followRedirects: bool, followSslRedirects: bool, readTimeout: Option<Millis>,
                              writeTimeout: Option<Millis>, retryOnConnectionFailure: bool,
                              connectTimeout: Option<Millis>): (c: ClientConfig)
    ensures c.followRedirects == followRedirects
    ensures c.followSslRedirects == followSslRedirects
    ensures c.readTimeout == readTimeout
    ensures c.writeTimeout == writeTimeout
    ensures c.retryOnConnectionFailure == retryOnConnectionFailure
    ensures c.connectTimeout == connectTimeout
  {
    ClientConfig(followRedirects, followSslRedirects, readTimeout, writeTimeout, retryOnConnectionFailure, connectTimeout)
  }
}
